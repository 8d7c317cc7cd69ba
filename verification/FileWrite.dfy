/** fat32_write: making the chain long enough, splicing the bytes in, recording the new extent. */
module FileWrite {
  import opened Bytes
  import opened Geometry
  import opened Volumes
  import opened Chains
  import opened Allocation
  import opened Contents
  import opened DiskLayout
  import opened FileRead
  import opened Slots
  import opened Trees
  import opened TreeSteps
  import opened TreeChains
  import opened TreeUnique
  import opened TreeNames
  import opened LooseSlots
  import opened SlotStore

  // ---------------------------------------------------------------- the transfer

  /** w is v with the bytes of chain ch changed to b, and nothing else. */
  ghost predicate BytesBecame(g: Geometry, v: View, w: View, ch: seq<nat>, b: seq<byte>) {
    && Placed(g, ch) && Confined(g, v, w, {}, ClustersOf(ch)) && w.fat == v.fat
    && ChainBytes(g, w, ch) == b
  }

  /** The byte-copy loop into the sector buffer. */
  method CopyIn(buffer: array<byte>, at: nat, input: seq<byte>, from: nat, amount: nat)
    requires at + amount <= buffer.Length && from + amount <= |input|
    modifies buffer
    ensures buffer[..] == Splice(old(buffer[..]), at, input[from..from + amount])
  {
    hide Splice;
    ghost var b := buffer[..];
    SpliceNone(b, at);
    assert input[from..from] == [];
    var i := 0;
    while i < amount
      invariant 0 <= i <= amount
      invariant buffer[..] == Splice(b, at, input[from..from + i])
    {
      SpliceNext(b, at, input, from, i);
      buffer[at + i] := input[from + i];
      i := i + 1;
    }
  }

  /** The new contents of the sector a piece of a write falls in: all new, or read, patched and written back. */
  method StorePiece(fs: Volume, input: seq<byte>, done: nat, lba: nat, offsetInSector: nat, amount: nat,
                    ghost c: nat, ghost s: nat)
    returns (r: Status)
    requires fs.Ready() && fs.g.InRange(c) && s < fs.g.sectorsPerCluster && lba == ClusterToLba(fs.g, c) + s
    requires done + amount <= |input| && offsetInSector + amount <= 512
    modifies fs`journal, fs.device, fs.sectorBuffer
    ensures fs.Ready() && r == Ok && fs.journal == old(fs.journal) + [fs.Now()]
    ensures var k := DataIndex(fs.g, c, s);
            fs.Now() == old(fs.Now()).(data := old(fs.Now()).data[k :=
              Splice(old(fs.Now()).data[k], offsetInSector, input[done..done + amount])])
  {
    hide Kept, ViewOf;
    var ok;
    if offsetInSector == 0 && amount == SECTOR {
      SpliceWhole(fs.Now().data[DataIndex(fs.g, c, s)], input[done..done + amount]);
      ok := WriteDataSector(fs, lba, c, s, input[done..done + amount]);
    } else {
      ok := ReadDataSector(fs, lba, c, s);
      if !ok {
        return IoError;
      }
      CopyIn(fs.sectorBuffer, offsetInSector, input, done, amount);
      ok := WriteDataSector(fs, lba, c, s, fs.sectorBuffer[..]);
    }
    r := if ok then Ok else IoError;
  }

  lemma SpliceWhole<T>(s: seq<T>, t: seq<T>)
    requires |t| == |s|
    ensures Splice(s, 0, t) == t
  {
  }

  /** One turn of the transfer loop of fat32_write. */
  method WritePiece(fs: Volume, input: seq<byte>, done: nat, cluster: nat, clusterOffset: nat, ghost ch: seq<nat>, ghost p: nat)
    returns (r: Status, amount: nat)
    requires fs.Ready() && Placed(fs.g, ch) && Distinct(ch) && p < 512 * Sectors(fs.g, |ch|)
    requires Quot(p, fs.g.ClusterSize()) < |ch| && cluster == ch[Quot(p, fs.g.ClusterSize())]
    requires clusterOffset == Rem(p, fs.g.ClusterSize())
    requires done < |input| && p + |input| - done <= 512 * Sectors(fs.g, |ch|)
    modifies fs`journal, fs.device, fs.sectorBuffer
    ensures fs.Ready() && r == Ok && 0 < amount <= |input| - done && p % 512 + amount <= 512
    ensures fs.journal == old(fs.journal) + [fs.Now()]
    ensures BytesBecame(fs.g, old(fs.Now()), fs.Now(), ch,
                        Splice(ChainBytes(fs.g, old(fs.Now()), ch), p, input[done..done + amount]))
  {
    hide Kept, ViewOf, ChainBytes, ChainSector, Confined, Quot, Rem;
    amount := 0;
    Locate(fs.g, ch, p);
    var sectorInCluster := clusterOffset / SECTOR;
    var offsetInSector := clusterOffset % SECTOR;
    ClusterToLbaPlaces(fs.g, cluster, sectorInCluster);
    var clusterLba := ClusterToLba(fs.g, cluster);
    if clusterLba == 0 {
      r := Error;
      return;
    }
    var available := SECTOR - offsetInSector;
    var wanted := |input| - done;
    amount := if wanted < available then wanted else available;
    PieceInChain(fs.g, fs.Now(), ch, p, input[done..done + amount]);
    r := StorePiece(fs, input, done, clusterLba + sectorInCluster, offsetInSector, amount, cluster, sectorInCluster);
  }

  lemma PieceInChain(g: Geometry, v: View, ch: seq<nat>, p: nat, piece: seq<byte>)
    requires Placed(g, ch) && Distinct(ch) && Fitted(g, v) && p < 512 * Sectors(g, |ch|) && p % 512 + |piece| <= 512
    ensures p + |piece| <= 512 * Sectors(g, |ch|) && p / 512 < Sectors(g, |ch|)
    ensures var k := ChainSector(g, ch, p / 512);
            BytesBecame(g, v, v.(data := v.data[k := Splice(v.data[k], p % 512, piece)]), ch,
                        Splice(ChainBytes(g, v, ch), p, piece))
  {
    hide ChainBytes, ChainSector, Confined, Distinct;
    var k := p / 512;
    var data := Splice(v.data[ChainSector(g, ch, k)], p % 512, piece);
    WriteChainSector(g, v, ch, k, data);
    ChainBytesSector(g, v, ch, k);
    SpliceWindow(ChainBytes(g, v, ch), 512 * k, 512, p % 512, piece);
    assert 512 * k + p % 512 == p;
    ChainSectorConfined(g, v, ch, k, data);
  }

  lemma BytesBecameTwice(g: Geometry, u: View, v: View, w: View, ch: seq<nat>, b: seq<byte>, b': seq<byte>)
    requires BytesBecame(g, u, v, ch, b) && BytesBecame(g, v, w, ch, b')
    ensures BytesBecame(g, u, w, ch, b')
  {
    ConfinedCompose(g, u, v, w, {}, ClustersOf(ch), {}, ClustersOf(ch));
    assert ClustersOf(ch) + ClustersOf(ch) == ClustersOf(ch);
    var none: set<nat> := {};
    assert none + none == none;
  }

  /** At every boundary since the journal was `before`, only the data of ch had changed. */
  ghost predicate OnlyDataOf(g: Geometry, before: seq<View>, after: seq<View>, v: View, ch: seq<nat>) {
    && before <= after
    && forall i | |before| <= i < |after| :: after[i].fat == v.fat && Confined(g, v, after[i], {}, ClustersOf(ch))
  }

  /** The transfer loop of fat32_write. */
  method WriteLoop(fs: Volume, file: FileHandle, input: seq<byte>, startCluster: nat, ghost ch: seq<nat>)
    returns (r: Status, bytesWritten: nat)
    requires fs.Ready() && Placed(fs.g, ch) && IsChain(fs.Now().fat, ch) && |input| > 0
    requires file.position + |input| <= 512 * Sectors(fs.g, |ch|)
    requires Quot(file.position, fs.g.ClusterSize()) < |ch| && startCluster == ch[Quot(file.position, fs.g.ClusterSize())]
    modifies fs`journal, fs.device, fs.sectorBuffer, file`position
    ensures fs.Ready() && r == Ok && bytesWritten == |input| && file.position == old(file.position) + |input|
    ensures BytesBecame(fs.g, old(fs.Now()), fs.Now(), ch,
                        Splice(ChainBytes(fs.g, old(fs.Now()), ch), old(file.position), input))
    ensures OnlyDataOf(fs.g, old(fs.journal), fs.journal, old(fs.Now()), ch)
  {
    hide Kept, ViewOf, ChainBytes, ChainSector, Quot, Rem, Confined, Splice, BytesBecame;
    bytesWritten := 0;
    var clusterSize := fs.g.ClusterSize();
    var clusterOffset := Rem(file.position, clusterSize);
    var cluster := startCluster;
    ghost var v := fs.Now();
    ghost var j := fs.journal;
    ghost var b := ChainBytes(fs.g, v, ch);
    ghost var start := file.position;
    BytesStart(fs.g, v, ch, start);
    while bytesWritten < |input|
      invariant 0 <= bytesWritten <= |input| && file.position == start + bytesWritten
      invariant fs.Ready() && IsChain(fs.Now().fat, ch)
      invariant BytesBecame(fs.g, v, fs.Now(), ch, Splice(b, start, input[..bytesWritten]))
      invariant OnlyDataOf(fs.g, j, fs.journal, v, ch)
      invariant bytesWritten < |input| ==>
                  Quot(file.position, clusterSize) < |ch| && cluster == ch[Quot(file.position, clusterSize)]
      invariant bytesWritten < |input| ==> clusterOffset == Rem(file.position, clusterSize)
    {
      ghost var p := file.position;
      ghost var u := fs.Now();
      BytesBecameFacts(fs.g, v, u, ch, Splice(b, start, input[..bytesWritten]));
      var amount;
      r, amount := WritePiece(fs, input, bytesWritten, cluster, clusterOffset, ch, p);
      if r != Ok {
        return;
      }
      Advance(fs.g, p, amount);
      ghost var next := Splice(ChainBytes(fs.g, u, ch), p, input[bytesWritten..bytesWritten + amount]);
      BytesBecameFacts(fs.g, u, fs.Now(), ch, next);
      BytesBecameTwice(fs.g, v, u, fs.Now(), ch, Splice(b, start, input[..bytesWritten]), next);
      SpliceOn(b, start, input, bytesWritten, amount);
      BytesBecameFacts(fs.g, v, fs.Now(), ch, next);
      bytesWritten := bytesWritten + amount;
      file.position := file.position + amount;
      clusterOffset := clusterOffset + amount;
      if clusterOffset >= clusterSize {
        clusterOffset := 0;
        if bytesWritten >= |input| {
          break;
        }
        Locate(fs.g, ch, file.position);
        var nextCluster;
        r, nextCluster := NextInChain(fs, cluster, ch, Quot(p, clusterSize));
        if r != Ok {
          return;
        }
        cluster := nextCluster;
      }
    }
    assert input[..|input|] == input;
    r := Ok;
  }

  lemma BytesStart(g: Geometry, v: View, ch: seq<nat>, start: nat)
    requires Placed(g, ch) && Fitted(g, v) && start <= 512 * Sectors(g, |ch|)
    ensures BytesBecame(g, v, v, ch, Splice(ChainBytes(g, v, ch), start, []))
  {
  }

  lemma BytesBecameFacts(g: Geometry, v: View, w: View, ch: seq<nat>, b: seq<byte>)
    requires BytesBecame(g, v, w, ch, b)
    ensures Placed(g, ch) && Fitted(g, w) && w.fat == v.fat && ChainBytes(g, w, ch) == b
    ensures Confined(g, v, w, {}, ClustersOf(ch))
  {
  }

  lemma SpliceOn(b: seq<byte>, start: nat, input: seq<byte>, done: nat, amount: nat)
    requires start + |input| <= |b| && done + amount <= |input|
    ensures Splice(Splice(b, start, input[..done]), start + done, input[done..done + amount])
         == Splice(b, start, input[..done + amount])
  {
    SpliceAdjacent(b, start, input[..done], input[done..done + amount]);
    assert input[..done] + input[done..done + amount] == input[..done + amount];
  }

  // ---------------------------------------------------------------- making room

  /** Every block boundary passed since the journal was `before` was consistent. */
  ghost predicate AllConsistent(g: Geometry, before: seq<View>, after: seq<View>) {
    before <= after && forall i | |before| <= i < |after| :: Consistent(g, after[i])
  }

  lemma NothingYet(g: Geometry, j: seq<View>)
    ensures AllConsistent(g, j, j)
  {
  }

  lemma AllConsistentCompose(g: Geometry, a: seq<View>, b: seq<View>, c: seq<View>)
    requires AllConsistent(g, a, b) && AllConsistent(g, b, c)
    ensures AllConsistent(g, a, c)
  {
    forall i | |a| <= i < |c| ensures Consistent(g, c[i]) {
      if i < |b| {
        assert c[i] == b[i];
      }
    }
  }

  function ChainAt(t: Tree, h: nat): seq<nat> {
    if h in t.chains then t.chains[h] else []
  }

  /** Off the chains a and b the FAT is unchanged. */
  ghost predicate FatKept(fat: seq<nat>, fat': seq<nat>, a: seq<nat>, b: seq<nat>) {
    forall c: nat | c < |fat| && c < |fat'| && c !in a && c !in b :: fat'[c] == fat[c]
  }

  lemma FatKeptTwice(f0: seq<nat>, f1: seq<nat>, f2: seq<nat>, a: seq<nat>, b: seq<nat>, c: seq<nat>)
    requires FatKept(f0, f1, a, b) && FatKept(f1, f2, b, c) && b <= c && |f0| == |f1| == |f2|
    ensures FatKept(f0, f2, a, c)
  {
    assert forall x | x in b :: x in c by {
      assert forall k | 0 <= k < |b| :: b[k] == c[k];
    }
  }

  /** Between (v, t) and (w, t') nothing but the file's chain at h changed. */
  ghost predicate OthersKept(g: Geometry, v: View, t: Tree, w: View, t': Tree, h: nat) {
    && Shape(g, v, t) && Shape(g, w, t') && h in t'.chains && t' == WithChain(t, h, t'.chains[h]) && h !in t.dirs
    && FatKept(v.fat, w.fat, ChainAt(t, h), ChainAt(t', h))
    && AllSlots(g, w, t') == AllSlots(g, v, t)
    && (forall k | k in t.chains && k != h :: BytesAt(g, w, t', k) == BytesAt(g, v, t, k))
  }

  ghost predicate SameBytes(g: Geometry, v: View, w: View, ch: seq<nat>) {
    Placed(g, ch) && Fitted(g, v) && Fitted(g, w) && ChainBytes(g, w, ch) == ChainBytes(g, v, ch)
  }

  /** Moreover that chain only grew, and its old clusters hold what they held. */
  ghost predicate ChainGrew(g: Geometry, v: View, t: Tree, w: View, t': Tree, h: nat) {
    && OthersKept(g, v, t, w, t', h)
    && ChainAt(t, h) <= t'.chains[h] && SameBytes(g, v, w, ChainAt(t, h))
  }

  lemma ChainGrewNot(g: Geometry, v: View, t: Tree, h: nat)
    requires Shape(g, v, t) && h in t.chains && h !in t.dirs
    ensures ChainGrew(g, v, t, v, t, h)
  {
    ChainPlaced(g, v, t.chains[h]);
    assert t.chains[h := t.chains[h]] == t.chains;
  }

  lemma FatLength(g: Geometry, v: View, t: Tree, w: View, t': Tree)
    requires Shape(g, v, t) && Shape(g, w, t')
    ensures |v.fat| == |w.fat|
  {
  }

  lemma OthersKeptTwice(g: Geometry, u: View, t: Tree, v: View, t1: Tree, w: View, t2: Tree, h: nat)
    requires OthersKept(g, u, t, v, t1, h) && OthersKept(g, v, t1, w, t2, h) && ChainAt(t1, h) <= ChainAt(t2, h)
    ensures OthersKept(g, u, t, w, t2, h)
  {
    hide AllSlots, BytesAt, FatKept, Shape;
    FatLength(g, u, t, v, t1);
    FatLength(g, v, t1, w, t2);
    FatKeptTwice(u.fat, v.fat, w.fat, ChainAt(t, h), ChainAt(t1, h), ChainAt(t2, h));
    assert t2.chains == t.chains[h := t2.chains[h]];
  }

  lemma SameBytesPrefix(g: Geometry, v: View, w: View, b: seq<nat>, a: seq<nat>)
    requires SameBytes(g, v, w, b) && a <= b
    ensures SameBytes(g, v, w, a)
  {
    hide ChainBytes;
    ChainBytesPrefix(g, v, b, |a|);
    ChainBytesPrefix(g, w, b, |a|);
    assert b[..|a|] == a;
  }

  lemma ChainGrewTwice(g: Geometry, u: View, t: Tree, v: View, t1: Tree, w: View, t2: Tree, h: nat)
    requires ChainGrew(g, u, t, v, t1, h) && ChainGrew(g, v, t1, w, t2, h)
    ensures ChainGrew(g, u, t, w, t2, h)
  {
    hide AllSlots, Shape, BytesAt, ChainBytes;
    OthersKeptTwice(g, u, t, v, t1, w, t2, h);
    SameBytesPrefix(g, v, w, t1.chains[h], ChainAt(t, h));
  }

  lemma ChainAtFacts(g: Geometry, v: View, t: Tree, h: nat, c: nat)
    requires Shape(g, v, t) && c < |v.fat| && v.fat[c] == 0
    ensures Placed(g, ChainAt(t, h)) && c !in ChainAt(t, h)
    ensures forall k | k in t.chains :: c !in t.chains[k]
  {
    FreeNotOwned(g, v, t, c);
    if h in t.chains {
      ChainPlaced(g, v, t.chains[h]);
    }
  }

  lemma ConfinedFat(g: Geometry, v: View, w: View, entries: set<nat>, clusters: set<nat>, a: seq<nat>, b: seq<nat>)
    requires Confined(g, v, w, entries, clusters) && forall e | e in entries :: e in a || e in b
    ensures FatKept(v.fat, w.fat, a, b)
  {
  }

  /** What taking one cluster for the file at h amounts to. */
  lemma GrewByOne(g: Geometry, v: View, t: Tree, w: View, t': Tree, h: nat, c: nat, entries: set<nat>)
    requires Shape(g, v, t) && h !in t.dirs && c < |v.fat| && v.fat[c] == 0
    requires Confined(g, v, w, entries, {c})
    requires t' == WithChain(t, h, ChainAt(t, h) + [c]) && Shape(g, w, t')
    requires forall e | e in entries :: e == c || e in ChainAt(t, h)
    ensures ChainGrew(g, v, t, w, t', h)
  {
    hide Confined, Shape, BytesAt, AllSlots, ChainBytes, FatKept, IsChain;
    ConfinedFat(g, v, w, entries, {c}, ChainAt(t, h), ChainAt(t', h));
    ChainAtFacts(g, v, t, h, c);
    ShapeFacts(g, v, t);
    ShapeFacts(g, w, t');
    SlotsFrame(g, v, t, w, t', entries, {c});
    forall k | k in t.chains && k != h ensures BytesAt(g, w, t', k) == BytesAt(g, v, t, k) {
      BytesFrame(g, v, t, w, t', entries, {c}, k);
    }
    ChainBytesFrame(g, v, w, ChainAt(t, h), entries, {c});
  }

  /** Safe and accounted for, with x not yet named. */
  ghost predicate Working(g: Geometry, v: View, t: Tree, x: nat) {
    Safe(g, v, t) && Housed(g, v, t, x) && Accounted(v, t) && x !in t.home
  }

  /** What taking clusters needs of the volume: chains that are disjoint, and no cluster unaccounted for. */
  ghost predicate Books(g: Geometry, v: View, t: Tree) {
    Shape(g, v, t) && Accounted(v, t)
  }

  /** If only one file's chain grew, that is what happened to the chains. */
  lemma KeptGrew(g: Geometry, v: View, t: Tree, w: View, t': Tree, h: nat)
    requires OthersKept(g, v, t, w, t', h) && ChainAt(t, h) <= ChainAt(t', h)
    ensures Grew(g, v, t, w, t') && forall k | k in t'.chains :: k in t.chains || k == h
  {
    hide AllSlots, Shape, BytesAt, FatKept;
    ShapeFacts(g, w, t');
  }

  lemma WorkingGrew(g: Geometry, v: View, t: Tree, w: View, t': Tree, y: nat, x: nat)
    requires Working(g, v, t, y) && Grew(g, v, t, w, t') && Accounted(w, t') && (y == 0 || y == x)
    requires forall k | k in t'.chains :: k in t.chains || k == x
    requires x == y || x !in t.chains
    ensures Working(g, w, t', x)
  {
    hide Safe, Accounted, AllSlots, Shape;
    if x != y {
      HousedHomes(g, v, t, x);
    }
    GrewSafe(g, v, t, w, t');
    FilesKeptHoused(g, v, t, w, t', y, x);
  }

  lemma GrewConsistent(g: Geometry, v: View, t: Tree, before: seq<View>, after: seq<View>)
    requires Safe(g, v, t) && AllGrew(g, v, t, before, after)
    ensures AllConsistent(g, before, after)
  {
    hide Safe, Grew;
    forall i | |before| <= i < |after| ensures Consistent(g, after[i]) {
      assert GrewTo(g, v, t, after[i]);
      var t' :| Grew(g, v, t, after[i], t');
      GrewSafe(g, v, t, after[i], t');
      SafeFacts(g, after[i], t');
    }
  }

  /** fat32_write's allocation of a first cluster: a chain of one that no entry names yet. */
  method StartChain(fs: Volume, ghost t: Tree) returns (r: Status, cluster: nat, ghost t': Tree)
    requires fs.Ready() && Books(fs.g, fs.Now(), t)
    modifies fs`journal, fs.device, fs.sectorBuffer
    ensures fs.Ready() && AllGrew(fs.g, old(fs.Now()), t, old(fs.journal), fs.journal)
    ensures r == if FreeCount(old(fs.Now()).fat) == 0 then Error else Ok
    ensures r != Ok ==> fs.Now() == old(fs.Now()) && t' == t && fs.journal == old(fs.journal)
    ensures r == Ok ==> fs.g.InRange(cluster) && cluster !in t.chains && cluster != fs.g.rootCluster
    ensures r == Ok ==> t' == WithChain(t, cluster, [cluster]) && Books(fs.g, fs.Now(), t')
    ensures r == Ok ==> ChainGrew(fs.g, old(fs.Now()), t, fs.Now(), t', cluster)
    ensures r == Ok ==> FreeCount(fs.Now().fat) == FreeCount(old(fs.Now()).fat) - 1
  {
    hide Kept, ViewOf, Accounted, AllSlots, Shape, Confined, Zeroed, FreeCount, Full, Grew;
    t' := t;
    ghost var v := fs.Now();
    ghost var j := fs.journal;
    FullMeans(fs.g, v);
    r, cluster := AllocateCluster(fs);
    if r != Ok {
      return;
    }
    RootInUse(fs.g, v, t);
    OneTaken(v.fat, cluster, fs.g.rootCluster);
    BegunChain(fs.g, v, t, fs.Now(), cluster);
    t' := WithChain(t, cluster, [cluster]);
    StartedGrew(fs.g, v, t, fs.Now(), t', cluster);
    forall i | |j| <= i < |fs.journal| ensures GrewTo(fs.g, v, t, fs.journal[i]) {
      TookGrew(fs.g, v, t, fs.journal[i], cluster);
    }
  }

  lemma RootInUse(g: Geometry, v: View, t: Tree)
    requires Shape(g, v, t)
    ensures OnVolume(v.fat, g.rootCluster) && v.fat[g.rootCluster] != 0
  {
    ShapeFacts(g, v, t);
    PathStep(v.fat, t.chains[g.rootCluster], 0);
  }

  lemma StartedGrew(g: Geometry, v: View, t: Tree, w: View, t': Tree, c: nat)
    requires Shape(g, v, t) && Shape(g, w, t') && Took(g, v, w, c) && t' == WithChain(t, c, [c]) && c !in t.chains
    ensures ChainGrew(g, v, t, w, t', c) && c != g.rootCluster
  {
    hide AllSlots, Confined, ChainGrew, Shape;
    ShapeFacts(g, v, t);
    assert ChainAt(t, c) + [c] == [c];
    GrewByOne(g, v, t, w, t', c, c, {c});
  }

  lemma HousedHomes(g: Geometry, v: View, t: Tree, c: nat)
    requires Housed(g, v, t, 0) && c !in t.chains
    ensures c !in t.home
  {
  }

  lemma LongerGrew(g: Geometry, v: View, t: Tree, w: View, c: nat, h: nat)
    requires Books(g, v, t) && h in t.chains && h !in t.dirs && |t.chains[h]| > 0
    requires Appended(g, v, w, c, t.chains[h][|t.chains[h]| - 1])
    ensures var t' := WithChain(t, h, t.chains[h] + [c]);
            Books(g, w, t') && ChainGrew(g, v, t, w, t', h)
  {
    hide AllSlots, Confined, ChainGrew, Accounted, Shape, Grew;
    LongerChain(g, v, t, w, c, h);
    GrewByOne(g, v, t, w, WithChain(t, h, t.chains[h] + [c]), h, c, {c, t.chains[h][|t.chains[h]| - 1]});
  }

  /** Every boundary inside fat32_append_cluster is one the chain has grown to: not at all until the link is made, and then
      by the one cluster. */
  lemma AppendBoundary(g: Geometry, v: View, t: Tree, j: View, c: nat, h: nat)
    requires Shape(g, v, t) && h in t.chains && h !in t.dirs && |t.chains[h]| > 0
    requires Fitted(g, v) && g.InRange(c) && v.fat[c] == 0 && g.InRange(t.chains[h][|t.chains[h]| - 1])
    requires var last := t.chains[h][|t.chains[h]| - 1];
             j.fat in {v.fat[c := EOC], v.fat[c := EOC][last := c]} && Confined(g, v, j, {c, last}, {c})
    ensures GrewTo(g, v, t, j)
  {
    hide Shape, Grew;
    var last := t.chains[h][|t.chains[h]| - 1];
    if j.fat == v.fat[c := EOC] {
      assert Confined(g, v, j, {c}, {c});
      TookGrew(g, v, t, j, c);
    } else {
      hide Confined;
      LongerChain(g, v, t, j, c, h);
    }
  }

  /** fat32_append_cluster behind the last cluster of the file at h. */
  method GrowChain(fs: Volume, current: nat, ghost h: nat, ghost t: Tree)
    returns (r: Status, next: nat, ghost t': Tree)
    requires fs.Ready() && Books(fs.g, fs.Now(), t) && h in t.chains && h !in t.dirs
    requires |t.chains[h]| > 0 && current == t.chains[h][|t.chains[h]| - 1] && fs.g.InRange(current)
    requires fs.Now().fat[current] != 0
    modifies fs`journal, fs.device, fs.sectorBuffer
    ensures fs.Ready() && AllGrew(fs.g, old(fs.Now()), t, old(fs.journal), fs.journal)
    ensures r == if FreeCount(old(fs.Now()).fat) == 0 then Error else Ok
    ensures r != Ok ==> fs.Now() == old(fs.Now()) && t' == t && fs.journal == old(fs.journal)
    ensures r == Ok ==> t' == WithChain(t, h, t.chains[h] + [next]) && Books(fs.g, fs.Now(), t')
    ensures r == Ok ==> ChainGrew(fs.g, old(fs.Now()), t, fs.Now(), t', h)
    ensures r == Ok ==> FreeCount(fs.Now().fat) == FreeCount(old(fs.Now()).fat) - 1
  {
    hide Kept, ViewOf, Accounted, AllSlots, Shape, Confined, Zeroed, ChainGrew, FreeCount, Full, GrewTo;
    t' := t;
    ghost var v := fs.Now();
    ghost var j := fs.journal;
    FullMeans(fs.g, v);
    r, next := AppendCluster(fs, current);
    if r != Ok {
      return;
    }
    OneTaken(v.fat, next, current);
    t' := WithChain(t, h, t.chains[h] + [next]);
    LongerGrew(fs.g, v, t, fs.Now(), next, h);
    forall i | |j| <= i < |fs.journal| ensures GrewTo(fs.g, v, t, fs.journal[i]) {
      AppendBoundary(fs.g, v, t, fs.journal[i], next, h);
    }
  }

  lemma BooksFacts(g: Geometry, v: View, t: Tree, h: nat)
    requires Books(g, v, t) && h in t.chains
    ensures Shape(g, v, t) && IsChain(v.fat, t.chains[h]) && t.chains[h][0] == h && |t.chains[h]| > 0
    ensures Placed(g, t.chains[h])
  {
    ShapeFacts(g, v, t);
    ChainPlaced(g, v, t.chains[h]);
  }

  /** The clusters a chain lacks to have n. */
  function Lacking(have: nat, n: nat): nat {
    if have < n then n - have else 0
  }

  /** The chain-extending loop of fat32_write: walk to the last cluster needed, appending where the chain ends. It succeeds
      if and only if as many clusters are free as the chain lacks. */
  method EnsureChain(fs: Volume, first: nat, startIndex: nat, finalIndex: nat, ghost t: Tree)
    returns (r: Status, startCluster: nat, ghost t': Tree)
    requires fs.Ready() && Books(fs.g, fs.Now(), t) && first in t.chains && first !in t.dirs
    requires startIndex <= finalIndex
    modifies fs`journal, fs.device, fs.sectorBuffer
    ensures fs.Ready() && AllGrew(fs.g, old(fs.Now()), t, old(fs.journal), fs.journal)
    ensures Books(fs.g, fs.Now(), t') && ChainGrew(fs.g, old(fs.Now()), t, fs.Now(), t', first)
    ensures ChainAt(t, first) <= ChainAt(t', first) && first in t'.chains && first !in t'.dirs
    ensures r == Ok ==> |ChainAt(t', first)| == Max(|ChainAt(t, first)|, finalIndex + 1)
    ensures r == Ok ==> startIndex < |ChainAt(t', first)| && startCluster == ChainAt(t', first)[startIndex]
    ensures r == if Lacking(|ChainAt(t, first)|, finalIndex + 1) <= FreeCount(old(fs.Now()).fat) then Ok else Error
    ensures r != Ok ==> FreeCount(fs.Now().fat) == 0
  {
    hide Kept, ViewOf, AllSlots, Shape, ChainGrew, Books, FreeCount, AllGrew, Grew;
    t' := t;
    ghost var v := fs.Now();
    ghost var j := fs.journal;
    BooksFacts(fs.g, v, t, first);
    ChainGrewNot(fs.g, v, t, first);
    NoneGrew(fs.g, v, t, j);
    var current := first;
    startCluster := 0;
    var clusterIndex := 0;
    while true
      invariant 0 <= clusterIndex <= finalIndex
      invariant fs.Ready() && AllGrew(fs.g, v, t, j, fs.journal)
      invariant Books(fs.g, fs.Now(), t') && ChainGrew(fs.g, v, t, fs.Now(), t', first)
      invariant first in t'.chains && first !in t'.dirs && clusterIndex < |t'.chains[first]|
      invariant ChainAt(t, first) <= ChainAt(t', first)
      invariant |t'.chains[first]| == Max(|t.chains[first]|, clusterIndex + 1) && current == t'.chains[first][clusterIndex]
      invariant clusterIndex > startIndex ==> startCluster == t'.chains[first][startIndex]
      invariant FreeCount(fs.Now().fat) + |t'.chains[first]| == FreeCount(v.fat) + |t.chains[first]|
      decreases finalIndex - clusterIndex
    {
      if clusterIndex == startIndex {
        startCluster := current;
      }
      if clusterIndex == finalIndex {
        break;
      }
      BooksFacts(fs.g, fs.Now(), t', first);
      PathStep(fs.Now().fat, t'.chains[first], clusterIndex);
      var nextCluster;
      r, nextCluster := NextCluster(fs, current);
      if r == EndOfFile {
        ghost var u, t1, j1 := fs.Now(), t', fs.journal;
        r, nextCluster, t' := GrowChain(fs, current, first, t1);
        ChainGrewGrew(fs.g, v, t, u, t1, first);
        AllGrewCompose(fs.g, v, t, u, t1, j, j1, fs.journal);
        if r != Ok {
          return;
        }
        ChainGrewTwice(fs.g, v, t, u, t1, fs.Now(), t', first);
      } else if r != Ok {
        return;
      }
      current := nextCluster;
      clusterIndex := clusterIndex + 1;
    }
    r := Ok;
  }

  lemma NoneGrew(g: Geometry, v: View, t: Tree, j: seq<View>)
    ensures AllGrew(g, v, t, j, j)
  {
  }

  lemma ChainGrewGrew(g: Geometry, v: View, t: Tree, w: View, t': Tree, h: nat)
    requires ChainGrew(g, v, t, w, t', h)
    ensures Grew(g, v, t, w, t')
  {
    hide OthersKept, Grew, SameBytes;
    OthersKeptFacts(g, v, t, w, t', h);
    KeptGrew(g, v, t, w, t', h);
  }

  // ---------------------------------------------------------------- the operation

  /** Slot i of directory d is a live file entry with that first cluster and size. */
  ghost predicate SlotIs(g: Geometry, v: View, t: Tree, d: nat, i: nat, h: nat, size: nat) {
    && Shape(g, v, t) && LiveIn(AllSlots(g, v, t), d, i)
    && var s := AllSlots(g, v, t)[d][i];
       !IsDirectory(s) && ClusterOf(s) == h && SizeOf(s) == size
  }

  /** The handle agrees with a live file entry of the tree. */
  ghost predicate HandleOk(g: Geometry, v: View, t: Tree, file: FileHandle)
    reads file
  {
    !file.directory && SlotIs(g, v, t, file.directoryCluster, file.entryIndex, file.firstCluster, file.size)
  }

  /** A file that can be written: its entry, in slot i of d, says first cluster h and that size, and every chain is named.
      Or, if x is not 0, a write that failed has left h == x, which the entry, of an empty file, does not know of. */
  ghost predicate Writable(g: Geometry, v: View, t: Tree, d: nat, i: nat, h: nat, size: nat, x: nat) {
    && Working(g, v, t, x) && SlotIs(g, v, t, d, i, if x == 0 then h else 0, size)
    && (x != 0 ==> h == x && x in t.chains && x !in t.dirs)
  }

  /** A file of size 0 whose entry may say anything of its first cluster, as fat32_truncate leaves it: it has no chain, or the
      chain x that a write which failed has begun. All else is in order. */
  ghost predicate Stale(g: Geometry, v: View, t: Tree, d: nat, i: nat, h: nat, size: nat, x: nat) {
    InOrderBut(g, v, t, x, d, i) && size == 0 && h == x && (x != 0 ==> x in t.chains && x !in t.dirs)
  }

  /** What fat32_write needs and leaves. */
  ghost predicate WriteReady(g: Geometry, v: View, t: Tree, file: FileHandle, x: nat)
    reads file
  {
    !file.directory && FileReady(g, v, t, file.directoryCluster, file.entryIndex, file.firstCluster, file.size, x)
  }

  ghost predicate FileReady(g: Geometry, v: View, t: Tree, d: nat, i: nat, h: nat, size: nat, x: nat) {
    Writable(g, v, t, d, i, h, size, x) || Stale(g, v, t, d, i, h, size, x)
  }

  /** The file's chain, at h, is whole, and its entry waits to be written; all else is in order. */
  ghost predicate Waiting(g: Geometry, v: View, t: Tree, d: nat, i: nat, h: nat) {
    InOrderBut(g, v, Unhomed(t, h), h, d, i) && Shape(g, v, t) && h in t.chains && h !in t.dirs
  }

  /** s' is s with another first cluster or size, at most. */
  ghost predicate SameButExtent(s: Slot, s': Slot) {
    s'[..20] == s[..20] && s'[22..26] == s[22..26]
  }

  lemma SameName(s: Slot, s': Slot)
    requires SameButExtent(s, s')
    ensures NameOf(s') == NameOf(s) && s'[0] == s[0] && (Live(s') <==> Live(s)) && (IsDirectory(s') <==> IsDirectory(s))
  {
    assert forall i | 0 <= i < 20 :: s'[i] == s'[..20][i] && s[i] == s[..20][i];
  }

  /** Between (v, t) and (w, t') nothing changed but the extent in slot i of d and the file chain h: no FAT entry off that
      chain, no other slot of any directory, no byte of another file. */
  ghost predicate OnlyFile(g: Geometry, v: View, t: Tree, w: View, t': Tree, d: nat, i: nat, h: nat) {
    && Shape(g, v, t) && Shape(g, w, t') && t'.dirs == t.dirs && t'.other == t.other
    && FatKept(v.fat, w.fat, ChainAt(t, h), ChainAt(t', h))
    && LiveIn(AllSlots(g, v, t), d, i) && d in AllSlots(g, w, t') && i < |AllSlots(g, w, t')[d]|
    && AllSlots(g, w, t') == Put(AllSlots(g, v, t), d, i, AllSlots(g, w, t')[d][i])
    && SameButExtent(AllSlots(g, v, t)[d][i], AllSlots(g, w, t')[d][i])
    && (forall k | k in t.chains && k != h :: k in t'.chains && t'.chains[k] == t.chains[k])
    && (forall k | k in t.chains && k != h && k !in t.dirs :: SameBytes(g, v, w, t.chains[k]))
  }

  lemma SlotFacts(g: Geometry, v: View, t: Tree, d: nat, i: nat, h: nat, size: nat)
    requires Safe(g, v, t) && SlotIs(g, v, t, d, i, h, size)
    ensures h == 0 ==> size == 0
    ensures h != 0 ==> h in t.chains && h !in t.dirs && g.InRange(h)
    ensures size < U32 && h < U32 && Stores(g, v, h, size, ChainAt(t, h))
    ensures d in t.dirs && i < |AllSlots(g, v, t)[d]|
  {
    hide AllSlots, TailUnused, DotsFirst;
    var m := AllSlots(g, v, t);
    assert LiveIn(m, d, i);
    assert Linked(t, d, m[d][i]) && SizeFits(g, t, m[d][i]);
    ShapeFacts(g, v, t);
    if h in t.chains {
      ChainPlaced(g, v, t.chains[h]);
    }
  }

  /** Recording a file's first cluster and size once its chain is in place, whatever the entry says. */
  lemma Recorded(g: Geometry, v: View, t: Tree, d: nat, i: nat, h: nat, size: nat)
    requires Waiting(g, v, t, d, i, h) && size < U32 && size <= 512 * Sectors(g, |t.chains[h]|)
    ensures h < U32 && d in t.dirs && LiveIn(AllSlots(g, v, t), d, i) && !IsDirectory(AllSlots(g, v, t)[d][i])
    ensures var s := ExtentSlot(AllSlots(g, v, t)[d][i], h, size); var w, t' := WithSlot(g, v, t, d, i, s), At(t, h, d, i);
            && WellFormed(g, w, t') && AllSlots(g, w, t') == Put(AllSlots(g, v, t), d, i, s) && w.fat == v.fat
            && (forall k | k in t.chains && k !in t.dirs :: SameBytes(g, v, w, t.chains[k]))
            && Live(s) && !IsDirectory(s) && ClusterOf(s) == h && SizeOf(s) == size
  {
    hide AllSlots, Shape, BytesAt, Safe, Housed, Accounted, WithSlot, Confined, Put, ExtentSlot, ClusterOf, SizeOf, Live, IsDirectory,
         SoundBut, HousedBut, At;
    ShapeFacts(g, v, t);
    SameButHome(g, v, t, Unhomed(t, h));
    EntryLive(AllSlots(g, v, t), d, i);
    var s := ExtentSlot(AllSlots(g, v, t)[d][i], h, size);
    ExtentSlotFields(AllSlots(g, v, t)[d][i], h, size);
    RecordedWell(g, v, Unhomed(t, h), h, d, i, s);
    SameWithSlot(g, v, t, Unhomed(t, h), d, i, s);
    AtUnhomed(t, h, d, i);
    WithSlotEffect(g, v, t, d, i, s);
    forall k | k in t.chains && k !in t.dirs ensures SameBytes(g, v, WithSlot(g, v, t, d, i, s), t.chains[k]) {
      SameBytesAt(g, v, WithSlot(g, v, t, d, i, s), t, k);
    }
  }

  lemma AtUnhomed(t: Tree, h: nat, d: nat, i: nat)
    requires h != 0
    ensures At(Unhomed(t, h), h, d, i) == At(t, h, d, i)
  {
    assert (t.home - {h})[h := (d, i)] == t.home[h := (d, i)];
  }

  lemma SameBytesAt(g: Geometry, v: View, w: View, t: Tree, k: nat)
    requires Shape(g, v, t) && Shape(g, w, t) && k in t.chains && BytesAt(g, w, t, k) == BytesAt(g, v, t, k)
    ensures SameBytes(g, v, w, t.chains[k])
  {
    ChainPlaced(g, v, t.chains[k]);
  }

  /** Writing into a file's own chain disturbs nothing else. */
  lemma DataWritten(g: Geometry, v: View, t: Tree, w: View, h: nat, b: seq<byte>)
    requires Books(g, v, t) && h in t.chains && h !in t.dirs && BytesBecame(g, v, w, t.chains[h], b)
    ensures Books(g, w, t) && OthersKept(g, v, t, w, t, h)
  {
    hide AllSlots, Confined, BytesAt, IsChain;
    var cs := ClustersOf(t.chains[h]);
    assert AwayFromDirs(t, cs);
    Untouched(g, v, w, t, {}, cs);
    SameFat(v, w, t);
    assert t.chains[h := t.chains[h]] == t.chains;
    forall k | k in t.chains && k != h ensures BytesAt(g, w, t, k) == BytesAt(g, v, t, k) {
      BytesFrame(g, v, t, w, t, {}, cs, k);
    }
  }

  lemma DataBoundaries(g: Geometry, v: View, t: Tree, h: nat, before: seq<View>, after: seq<View>)
    requires Shape(g, v, t) && h in t.chains && h !in t.dirs && OnlyDataOf(g, before, after, v, t.chains[h])
    ensures AllGrew(g, v, t, before, after)
  {
    hide AllSlots, Confined, IsChain;
    var cs := ClustersOf(t.chains[h]);
    assert AwayFromDirs(t, cs);
    ShapeFacts(g, v, t);
    forall i | |before| <= i < |after| ensures GrewTo(g, v, t, after[i]) {
      Untouched(g, v, after[i], t, {}, cs);
      assert Grew(g, v, t, after[i], t);
    }
  }

  /** old with input laid over it from pos on, growing it if need be. */
  function Spliced(old_: seq<byte>, pos: nat, input: seq<byte>): (b: seq<byte>)
    ensures pos <= |old_| ==> |b| == Max(|old_|, pos + |input|)
  {
    old_[..Min(pos, |old_|)] + input + old_[Min(pos + |input|, |old_|)..]
  }

  lemma SplicedContent(b: seq<byte>, size: nat, pos: nat, input: seq<byte>, b1: seq<byte>)
    requires pos <= size <= |b| <= |b1| && b1[..|b|] == b && pos + |input| <= |b1|
    ensures Max(size, pos + |input|) <= |Splice(b1, pos, input)|
    ensures Splice(b1, pos, input)[..Max(size, pos + |input|)] == Spliced(b[..size], pos, input)
  {
    assert b[..size] == b1[..size];
  }

  /** Assembly of a write: only the chain at h changed up to v2 and t1, then its entry is recorded. */
  lemma WriteRecorded(g: Geometry, v: View, t: Tree, v2: View, t1: Tree, d: nat, i: nat, h: nat, size: nat)
    requires OthersKept(g, v, t, v2, t1, h) && Waiting(g, v2, t1, d, i, h)
    requires size < U32 && size <= 512 * Sectors(g, |t1.chains[h]|)
    ensures d in t1.dirs && LiveIn(AllSlots(g, v2, t1), d, i) && h < U32
    ensures var w, t' := WithSlot(g, v2, t1, d, i, ExtentSlot(AllSlots(g, v2, t1)[d][i], h, size)), At(t1, h, d, i);
            && WellFormed(g, w, t') && OnlyFile(g, v, t, w, t', d, i, h) && SlotIs(g, w, t', d, i, h, size)
            && SameBytes(g, v2, w, t1.chains[h])
  {
    hide AllSlots, Shape, BytesAt, SoundIn, SizedIn, HousedIn, Accounted, Confined, ChainBytes, WithSlot, Put, ExtentSlot,
         ClusterOf, SizeOf, Live, IsDirectory, InOrderBut;
    Recorded(g, v2, t1, d, i, h, size);
    var w, t' := WithSlot(g, v2, t1, d, i, ExtentSlot(AllSlots(g, v, t)[d][i], h, size)), At(t1, h, d, i);
    PutAt(AllSlots(g, v2, t1), d, i, ExtentSlot(AllSlots(g, v, t)[d][i], h, size));
    ExtentSlotFields(AllSlots(g, v, t)[d][i], h, size);
    KeptElsewhere(g, v, t, v2, t1, w, t', d, i, h);
  }

  lemma PutAt(m: Dirs, d: nat, i: nat, s: Slot)
    requires d in m && i < |m[d]|
    ensures Put(m, d, i, s)[d][i] == s
  {
  }

  lemma KeptElsewhere(g: Geometry, v: View, t: Tree, v2: View, t1: Tree, w: View, t': Tree, d: nat, i: nat, h: nat)
    requires OthersKept(g, v, t, v2, t1, h) && LiveIn(AllSlots(g, v, t), d, i)
    requires t'.chains == t1.chains && t'.dirs == t1.dirs && t'.other == t1.other && Shape(g, w, t') && w.fat == v2.fat
    requires d in AllSlots(g, w, t') && i < |AllSlots(g, w, t')[d]|
    requires AllSlots(g, w, t') == Put(AllSlots(g, v2, t1), d, i, AllSlots(g, w, t')[d][i])
    requires SameButExtent(AllSlots(g, v, t)[d][i], AllSlots(g, w, t')[d][i])
    requires forall k | k in t1.chains && k !in t1.dirs :: SameBytes(g, v2, w, t1.chains[k])
    ensures OnlyFile(g, v, t, w, t', d, i, h)
  {
    hide AllSlots, Shape, ChainBytes, Put, Live;
    forall k | k in t.chains && k != h && k !in t.dirs ensures SameBytes(g, v, w, t.chains[k]) {
      SameBytesAtTrees(g, v, t, v2, t1, k);
    }
  }

  lemma SameBytesAtTrees(g: Geometry, v: View, t: Tree, w: View, t': Tree, k: nat)
    requires Shape(g, v, t) && Shape(g, w, t') && k in t.chains && k in t'.chains && t'.chains[k] == t.chains[k]
    requires BytesAt(g, w, t', k) == BytesAt(g, v, t, k)
    ensures SameBytes(g, v, w, t.chains[k])
  {
    ChainPlaced(g, v, t.chains[k]);
  }

  /** A file of that size on chain ch reads as b. */
  ghost predicate Shows(g: Geometry, v: View, ch: seq<nat>, size: nat, b: seq<byte>) {
    Placed(g, ch) && Fitted(g, v) && size <= 512 * Sectors(g, |ch|) && Content(g, v, ch, size) == b
  }

  /** The bytes a file shows after its chain grew and was written. */
  lemma NowShows(g: Geometry, v: View, t: Tree, v1: View, t1: Tree, v2: View, h: nat, pos: nat, input: seq<byte>, old_: seq<byte>)
    requires ChainGrew(g, v, t, v1, t1, h) && Shows(g, v, ChainAt(t, h), |old_|, old_) && pos <= |old_|
    requires Placed(g, t1.chains[h]) && pos + |input| <= 512 * Sectors(g, |t1.chains[h]|)
    requires BytesBecame(g, v1, v2, t1.chains[h], Splice(ChainBytes(g, v1, t1.chains[h]), pos, input))
    ensures Shows(g, v2, t1.chains[h], |Spliced(old_, pos, input)|, Spliced(old_, pos, input))
  {
    hide Shape, AllSlots, ChainBytes, Spliced, Splice, FatKept;
    var ch, ch1 := ChainAt(t, h), t1.chains[h];
    ChainBytesPrefix(g, v1, ch1, |ch|);
    assert ch1[..|ch|] == ch;
    SplicedContent(ChainBytes(g, v, ch), |old_|, pos, input, ChainBytes(g, v1, ch1));
  }

  /** The clusters a chain lacks to hold a file of that size. */
  function Lacks(g: Geometry, have: nat, end: nat): nat
    requires g.Valid() && end > 0
  {
    Lacking(have, Quot(end - 1, g.ClusterSize()) + 1)
  }

  /** The middle of fat32_write: room in the chain for the whole write, then the bytes. */
  method PutBytes(fs: Volume, file: FileHandle, input: seq<byte>, ghost h: nat, ghost pos: nat, ghost old_: seq<byte>,
                  ghost t: Tree)
    returns (r: Status, bytesWritten: nat, ghost t': Tree)
    requires fs.Ready() && Books(fs.g, fs.Now(), t) && h in t.chains && h !in t.dirs
    requires |input| > 0 && file.firstCluster == h && file.position == pos <= file.size == |old_|
    requires Shows(fs.g, fs.Now(), ChainAt(t, h), |old_|, old_)
    modifies fs`journal, fs.device, fs.sectorBuffer, file`position
    ensures fs.Ready() && AllGrew(fs.g, old(fs.Now()), t, old(fs.journal), fs.journal)
    ensures Books(fs.g, fs.Now(), t') && OthersKept(fs.g, old(fs.Now()), t, fs.Now(), t', h)
    ensures h in t'.chains && ChainAt(t, h) <= ChainAt(t', h)
    ensures r == Ok ==> bytesWritten == |input| && file.position == pos + |input|
    ensures r == Ok ==> |ChainAt(t', h)| == Max(|ChainAt(t, h)|, Quot(pos + |input| - 1, fs.g.ClusterSize()) + 1)
    ensures r == Ok ==> Shows(fs.g, fs.Now(), ChainAt(t', h), |Spliced(old_, pos, input)|, Spliced(old_, pos, input))
    ensures r == if Lacks(fs.g, |ChainAt(t, h)|, pos + |input|) <= FreeCount(old(fs.Now()).fat) then Ok else Error
    ensures r != Ok ==> FreeCount(fs.Now().fat) == 0 && bytesWritten == 0 && file.position == pos
    ensures r != Ok ==> Shows(fs.g, fs.Now(), ChainAt(t', h), |old_|, old_)
  {
    hide Kept, ViewOf, AllSlots, Shape, OthersKept, BytesBecame, Books, FreeCount, OnlyDataOf, Grew,
         ChainBytes, AllGrew, Quot, Spliced, Splice, IsChain, Confined, SameBytes, Shows;
    bytesWritten := 0;
    ghost var v, j := fs.Now(), fs.journal;
    var finalIndex := Quot(file.position + |input| - 1, fs.g.ClusterSize());
    var startIndex := Quot(file.position, fs.g.ClusterSize());
    BooksFacts(fs.g, v, t, h);
    QuotMonotone(pos, pos + |input| - 1, fs.g.ClusterSize());
    var startCluster;
    r, startCluster, t' := EnsureChain(fs, file.firstCluster, startIndex, finalIndex, t);
    ghost var v1, j1 := fs.Now(), fs.journal;
    BooksFacts(fs.g, v1, t', h);
    if r != Ok {
      StillShows(fs.g, v, t, v1, t', h, old_);
      return;
    }
    if startCluster < 2 {
      r := Error;
      return;
    }
    RoomFor(fs.g, t'.chains[h], pos + |input|);
    r, bytesWritten := WriteLoop(fs, file, input, startCluster, t'.chains[h]);
    DataWritten(fs.g, v1, t', fs.Now(), h, Splice(ChainBytes(fs.g, v1, t'.chains[h]), pos, input));
    DataBoundaries(fs.g, v1, t', h, j1, fs.journal);
    ChainGrewGrew(fs.g, v, t, v1, t', h);
    AllGrewCompose(fs.g, v, t, v1, t', j, j1, fs.journal);
    NowShows(fs.g, v, t, v1, t', fs.Now(), h, pos, input, old_);
    OthersKeptTwice(fs.g, v, t, v1, t', fs.Now(), t', h);
  }

  lemma StillShows(g: Geometry, v: View, t: Tree, w: View, t': Tree, h: nat, b: seq<byte>)
    requires ChainGrew(g, v, t, w, t', h) && h in t.chains && Shows(g, v, t.chains[h], |b|, b) && Placed(g, t'.chains[h])
    ensures Shows(g, w, t'.chains[h], |b|, b)
  {
    hide Shape, AllSlots, ChainBytes;
    var ch, ch' := t.chains[h], t'.chains[h];
    ChainBytesPrefix(g, w, ch', |ch|);
    assert ch'[..|ch|] == ch;
    assert ChainBytes(g, w, ch')[..512 * Sectors(g, |ch|)][..|b|] == ChainBytes(g, w, ch')[..|b|];
  }

  lemma QuotMonotone(a: nat, b: nat, n: nat)
    requires a <= b && n > 0
    ensures Quot(a, n) <= Quot(b, n)
  {
    QuotRem(a, n);
    QuotRem(b, n);
    TimesIfLess(n, Quot(b, n), Rem(b, n), Quot(a, n));
  }

  lemma TimesIfLess(n: nat, a: nat, r: nat, b: nat)
    requires r < n
    ensures a < b ==> Times(a, n) + r < Times(b, n)
  {
    if a < b {
      TimesLess(n, a, r, b);
    }
  }

  /** A chain that reaches the cluster of a file's last byte has room for the file. */
  lemma RoomFor(g: Geometry, ch: seq<nat>, end: nat)
    requires g.Valid() && end > 0 && Quot(end - 1, g.ClusterSize()) < |ch|
    ensures end <= 512 * Sectors(g, |ch|)
  {
    ByteSector(end - 1, g.sectorsPerCluster);
    QuotLess((end - 1) / 512, g.sectorsPerCluster, |ch|);
  }

  /** What a successful write does to the volume. */
  ghost predicate WriteDone(g: Geometry, v: View, t: Tree, w: View, t': Tree, d: nat, i: nat, h: nat, h': nat,
                            pos: nat, input: seq<byte>, old_: seq<byte>)
  {
    && g.Valid()
    && |input| > 0 && |ChainAt(t', h')| == Max(|ChainAt(t, h)|, Quot(pos + |input| - 1, g.ClusterSize()) + 1)
    && (h != 0 ==> h' == h) && ChainAt(t, h) <= ChainAt(t', h')
    && Shows(g, w, ChainAt(t', h'), |Spliced(old_, pos, input)|, Spliced(old_, pos, input))
    && WellFormed(g, w, t') && OnlyFile(g, v, t, w, t', d, i, h')
  }

  /** The view after the entry is rewritten. */
  lemma Recording(g: Geometry, v: View, t: Tree, v2: View, t1: Tree, d: nat, i: nat, h: nat, size: nat)
    requires OthersKept(g, v, t, v2, t1, h) && Waiting(g, v2, t1, d, i, h)
    requires size < U32 && size <= 512 * Sectors(g, |t1.chains[h]|)
    ensures Shape(g, v2, t1) && d in t1.dirs && i < |AllSlots(g, v2, t1)[d]| && h < U32
    ensures var w, t' := WithSlot(g, v2, t1, d, i, ExtentSlot(AllSlots(g, v2, t1)[d][i], h, size)), At(t1, h, d, i);
            && WellFormed(g, w, t') && OnlyFile(g, v, t, w, t', d, i, h) && SlotIs(g, w, t', d, i, h, size)
            && SameBytes(g, v2, w, t1.chains[h]) && Consistent(g, w)
  {
    hide AllSlots, Shape, BytesAt, Sound, SizedIn, Housed, Accounted, ChainBytes, WithSlot, Put, ExtentSlot, SlotIs, OnlyFile,
         OthersKept, SameBytes, InOrderBut;
    WriteRecorded(g, v, t, v2, t1, d, i, h, size);
  }

  /** If neither size nor first cluster changed, the entry is right as it stands. */
  lemma NotRecording(g: Geometry, v: View, t: Tree, v2: View, t1: Tree, d: nat, i: nat, h: nat, size: nat)
    requires OthersKept(g, v, t, v2, t1, h) && Working(g, v2, t1, 0) && SlotIs(g, v, t, d, i, h, size)
    ensures WellFormed(g, v2, t1) && OnlyFile(g, v, t, v2, t1, d, i, h) && SlotIs(g, v2, t1, d, i, h, size)
    ensures SameBytes(g, v2, v2, t1.chains[h])
  {
    hide AllSlots, Shape, BytesAt, SoundIn, SizedIn, HousedIn, Accounted, ChainBytes, Put, ClusterOf, SizeOf, IsDirectory, Live;
    PutSame(AllSlots(g, v, t), d, i);
    forall k | k in t1.chains ensures SameBytes(g, v2, v2, t1.chains[k]) {
      SameBytesAt(g, v2, v2, t1, k);
    }
    KeptElsewhere(g, v, t, v2, t1, v2, t1, d, i, h);
  }

  /** The end of fat32_write: the new size, and the directory entry if its extent changed. */
  method RecordWrite(fs: Volume, file: FileHandle, oldSize: nat, oldFirstCluster: nat, ghost v: View, ghost t: Tree,
                     ghost t1: Tree, ghost h: nat)
    returns (r: Status, ghost t': Tree)
    requires fs.Ready() && !file.directory && file.firstCluster == h && file.size == oldSize
    requires OthersKept(fs.g, v, t, fs.Now(), t1, h)
    requires Waiting(fs.g, fs.Now(), t1, file.directoryCluster, file.entryIndex, h)
    requires file.position <= oldSize && h == oldFirstCluster ==>
               && Working(fs.g, fs.Now(), t1, 0)
               && SlotIs(fs.g, v, t, file.directoryCluster, file.entryIndex, h, oldSize)
    requires Max(file.size, file.position) < U32 && Max(file.size, file.position) <= 512 * Sectors(fs.g, |t1.chains[h]|)
    modifies fs`journal, fs.device, fs.sectorBuffer, file`size
    ensures fs.Ready() && r == Ok && file.size == Max(old(file.size), file.position)
    ensures AllConsistent(fs.g, old(fs.journal), fs.journal)
    ensures WellFormed(fs.g, fs.Now(), t') && t'.chains == t1.chains
    ensures OnlyFile(fs.g, v, t, fs.Now(), t', file.directoryCluster, file.entryIndex, h)
    ensures SlotIs(fs.g, fs.Now(), t', file.directoryCluster, file.entryIndex, h, file.size)
    ensures h in t1.chains && SameBytes(fs.g, old(fs.Now()), fs.Now(), t1.chains[h])
  {
    hide Kept, ViewOf, AllSlots, Shape, OthersKept, Working, WellFormed, OnlyFile, SlotIs, SameBytes, Consistent, WithSlot,
         ExtentSlot, Waiting;
    t' := t1;
    ghost var d, i := file.directoryCluster, file.entryIndex;
    KeptFacts(fs.g, v, t, fs.Now(), t1, h);
    if file.position > file.size {
      file.size := file.position;
    }
    if file.size != oldSize || file.firstCluster != oldFirstCluster {
      Recording(fs.g, v, t, fs.Now(), t1, d, i, h, file.size);
      r := UpdateFileEntry(fs, file, t1);
      t' := At(t1, h, d, i);
    } else {
      NotRecording(fs.g, v, t, fs.Now(), t1, d, i, h, oldSize);
      r := Ok;
    }
  }

  lemma KeptFacts(g: Geometry, v: View, t: Tree, w: View, t': Tree, h: nat)
    requires OthersKept(g, v, t, w, t', h)
    ensures h in t'.chains && Shape(g, v, t) && Shape(g, w, t') && h != 0
  {
    ShapeFacts(g, w, t');
  }

  /** Growing its chain and writing into it leaves a file ready as it was. */
  lemma ReadyKept(g: Geometry, v: View, t: Tree, w: View, t': Tree, d: nat, i: nat, h: nat, size: nat, x: nat)
    requires OthersKept(g, v, t, w, t', h) && ChainAt(t, h) <= ChainAt(t', h) && h in t.chains && Accounted(w, t')
    ensures Writable(g, v, t, d, i, h, size, x) ==> Writable(g, w, t', d, i, h, size, x)
    ensures Stale(g, v, t, d, i, h, size, x) ==> Stale(g, w, t', d, i, h, size, x)
  {
    hide AllSlots, Shape, Safe, Housed, Accounted, SoundBut, HousedBut, FileEntry, BytesAt, FatKept, Live, IsDirectory, ClusterOf,
         SizeOf, Grew;
    KeptGrew(g, v, t, w, t', h);
    if Writable(g, v, t, d, i, h, size, x) {
      WorkingGrew(g, v, t, w, t', x, x);
    }
    if Stale(g, v, t, d, i, h, size, x) {
      NotHome(g, v, t, x, d, i);
      GrewBut(g, v, t, w, t', x, x, d, i);
    }
  }

  lemma NotHome(g: Geometry, v: View, t: Tree, x: nat, d: nat, i: nat)
    requires InOrderBut(g, v, t, x, d, i)
    ensures x !in t.home
  {
    hide AllSlots, Shape, Accounted, SoundBut, FileEntry, Live, ClusterOf;
  }

  /** A file that is ready and has a chain waits for its entry to be written. */
  lemma ReadyWaiting(g: Geometry, v: View, t: Tree, d: nat, i: nat, h: nat, size: nat, x: nat)
    requires FileReady(g, v, t, d, i, h, size, x) && h != 0
    ensures Waiting(g, v, t, d, i, h)
  {
    hide AllSlots, Shape, Safe, Housed, Accounted, SoundBut, HousedBut, Live, IsDirectory, ClusterOf, SizeOf;
    if Writable(g, v, t, d, i, h, size, x) {
      WritableFacts(g, v, t, d, i, h, size, x);
      if x == 0 {
        NamedBut(g, v, t, h, d, i);
      } else {
        EmptyBut(g, v, t, x, d, i);
        UnhomedSame(t, x);
      }
    } else {
      NotHome(g, v, t, x, d, i);
      UnhomedSame(t, x);
    }
  }

  lemma UnhomedSame(t: Tree, x: nat)
    requires x !in t.home
    ensures Unhomed(t, x) == t
  {
    assert t.home - {x} == t.home;
  }

  /** fat32_write from the point where the request is known to be sensible and the file has a first cluster. */
  method WriteFrom(fs: Volume, file: FileHandle, input: seq<byte>, oldSize: nat, oldFirstCluster: nat,
                   ghost v: View, ghost t: Tree, ghost t0: Tree, ghost h: nat, ghost x: nat, ghost old_: seq<byte>)
    returns (r: Status, bytesWritten: nat, ghost t': Tree)
    requires fs.Ready() && WriteReady(fs.g, fs.Now(), t0, file, x) && OthersKept(fs.g, v, t, fs.Now(), t0, h)
    requires Books(fs.g, fs.Now(), t0) && h in t0.chains
    requires ChainAt(t, oldFirstCluster) <= ChainAt(t0, h)
    requires file.firstCluster == h && file.size == oldSize == |old_| < U32
    requires x != 0 || Stale(fs.g, fs.Now(), t0, file.directoryCluster, file.entryIndex, h, oldSize, x) ==> oldSize == 0
    requires |ChainAt(t0, h)| == Max(|ChainAt(t, oldFirstCluster)|, 1)
    requires |input| > 0 && file.position <= file.size && file.position + |input| < U32
    requires Shows(fs.g, fs.Now(), ChainAt(t0, h), |old_|, old_)
    modifies fs`journal, fs.device, fs.sectorBuffer, file`size, file`position
    ensures fs.Ready() && (Safe(fs.g, old(fs.Now()), t0) ==> AllConsistent(fs.g, old(fs.journal), fs.journal))
    ensures r == Ok ==> bytesWritten == |input| && file.position == old(file.position) + |input|
    ensures r == Ok ==> file.size == |Spliced(old_, old(file.position), input)|
    ensures r == Ok ==> SlotIs(fs.g, fs.Now(), t', file.directoryCluster, file.entryIndex, h, file.size)
    ensures r == Ok ==> WellFormed(fs.g, fs.Now(), t')
    ensures r == Ok ==> OnlyFile(fs.g, v, t, fs.Now(), t', file.directoryCluster, file.entryIndex, h)
    ensures r == Ok ==> Shows(fs.g, fs.Now(), ChainAt(t', h), |Spliced(old_, old(file.position), input)|,
                              Spliced(old_, old(file.position), input))
    ensures r == Ok ==> ChainAt(t, oldFirstCluster) <= ChainAt(t', h)
    ensures r == Ok ==> |ChainAt(t', h)| == Max(|ChainAt(t, oldFirstCluster)|,
                                                Quot(old(file.position) + |input| - 1, fs.g.ClusterSize()) + 1)
    ensures r == if Lacks(fs.g, |ChainAt(t0, h)|, old(file.position) + |input|) <= FreeCount(old(fs.Now()).fat) then Ok else Error
    ensures r != Ok ==> bytesWritten == 0 && file.position == old(file.position) && file.size == oldSize
    ensures r != Ok ==> FreeCount(fs.Now().fat) == 0 && OthersKept(fs.g, v, t, fs.Now(), t', h)
    ensures r != Ok ==> WriteReady(fs.g, fs.Now(), t', file, x) && Shows(fs.g, fs.Now(), ChainAt(t', h), |old_|, old_)
    ensures r != Ok && Writable(fs.g, old(fs.Now()), t0, file.directoryCluster, file.entryIndex, h, oldSize, x) ==>
              Writable(fs.g, fs.Now(), t', file.directoryCluster, file.entryIndex, h, oldSize, x)
  {
    hide Kept, ViewOf, AllSlots, Shape, OthersKept, Writable, Stale, WellFormed, OnlyFile, SlotIs, SameBytes, Consistent, Spliced,
         Shows, FreeCount, AllConsistent, Quot, Books, Waiting, Safe, AllGrew;
    ghost var u, j, pos, d, i := fs.Now(), fs.journal, file.position, file.directoryCluster, file.entryIndex;
    KeptFacts(fs.g, v, t, u, t0, h);
    OthersKeptFacts(fs.g, v, t, u, t0, h);
    ghost var t1;
    r, bytesWritten, t1 := PutBytes(fs, file, input, h, pos, old_, t0);
    ghost var v2, j1 := fs.Now(), fs.journal;
    OthersKeptTwice(fs.g, v, t, u, t0, v2, t1, h);
    AccountedBooks(fs.g, v2, t1);
    ReadyKept(fs.g, u, t0, v2, t1, d, i, h, oldSize, x);
    if Safe(fs.g, u, t0) {
      GrewConsistent(fs.g, u, t0, j, j1);
    }
    t' := t1;
    if r != Ok {
      return;
    }
    ReadyWaiting(fs.g, v2, t1, d, i, h, oldSize, x);
    ShowsRoom(fs.g, v2, ChainAt(t1, h), Spliced(old_, pos, input));
    if file.position <= oldSize {
      WasWritable(fs.g, v, t, v2, t1, d, i, h, oldSize);
    }
    ghost var t2;
    r, t2 := RecordWrite(fs, file, oldSize, oldFirstCluster, v, t, t1, h);
    t' := t2;
    if Safe(fs.g, u, t0) {
      AllConsistentCompose(fs.g, j, j1, fs.journal);
    }
    ShowsSame(fs.g, v2, fs.Now(), t1.chains[h], Spliced(old_, pos, input));
  }

  lemma AccountedBooks(g: Geometry, v: View, t: Tree)
    requires Books(g, v, t)
    ensures Accounted(v, t)
  {
  }

  /** An entry that is right as it stands was right before the chain grew. */
  lemma WasWritable(g: Geometry, v: View, t: Tree, w: View, t': Tree, d: nat, i: nat, h: nat, size: nat)
    requires OthersKept(g, v, t, w, t', h) && Writable(g, w, t', d, i, h, size, 0)
    ensures Working(g, w, t', 0) && SlotIs(g, v, t, d, i, h, size)
  {
    hide AllSlots, Shape, Safe, Housed, Accounted, BytesAt, FatKept, Live, IsDirectory, ClusterOf, SizeOf;
  }

  lemma OthersKeptFacts(g: Geometry, v: View, t: Tree, w: View, t': Tree, h: nat)
    requires OthersKept(g, v, t, w, t', h)
    ensures h in t'.chains && h !in t'.dirs
  {
  }

  lemma ShowsRoom(g: Geometry, v: View, ch: seq<nat>, b: seq<byte>)
    requires Shows(g, v, ch, |b|, b)
    ensures |b| <= 512 * Sectors(g, |ch|)
  {
  }

  lemma ShowsLength(g: Geometry, v: View, ch: seq<nat>, size: nat, b: seq<byte>)
    requires Shows(g, v, ch, size, b)
    ensures |b| == size
  {
  }

  lemma ShowsSame(g: Geometry, v: View, w: View, ch: seq<nat>, b: seq<byte>)
    requires Shows(g, v, ch, |b|, b) && SameBytes(g, v, w, ch)
    ensures Shows(g, w, ch, |b|, b)
  {
  }

  /** What becomes of a request to write n bytes: refused, done, or stuck for want of clusters. */
  ghost function WriteStatus(g: Geometry, v: View, directory: bool, position: nat, size: nat, n: nat, have: nat): Status
    requires g.Valid()
  {
    if directory then NotAFile
    else if n == 0 then Ok
    else if !Sensible(position, size, n) then Error
    else if Lacks(g, have, position + n) <= FreeCount(v.fat) then Ok
    else Error
  }

  /** A write that wants clusters: the file, and every other, reads as before. Whether the handle has a first cluster the
      entry does not know of (x') depends on what was known before (x, h) and on whether any cluster was free. */
  ghost predicate WriteFailed(g: Geometry, v: View, t: Tree, w: View, t': Tree, h: nat, x: nat, h': nat, x': nat, old_: seq<byte>) {
    && Shows(g, w, ChainAt(t', h'), |old_|, old_) && FreeCount(w.fat) == 0
    && (x' != 0 <==> x != 0 || (h == 0 && FreeCount(v.fat) > 0))
    && (h' == if h == 0 then x' else h)
    && (if h' == 0 then w == v && t' == t else OthersKept(g, v, t, w, t', h'))
  }

  /** fat32_write: what it returns, for every request; a sensible one succeeds if and only if as many clusters are free as
      the file's chain lacks. On success the file reads as old[..pos] + input + the rest of old, the position is behind the
      input, the chain is exactly as long as it was or as the write needs, and the volume is well formed with nothing else
      changed. A failure leaves every file as it was, and leaves a chain that no entry names if and only if there was one
      before or the file had no cluster and some cluster was free; the next write through the handle may start from there.
      All block boundaries on the way are consistent if the volume was before. After a truncation to nothing it was not; then
      a write that succeeds puts it in order again. */
  method Write(fs: Volume, file: FileHandle, input: seq<byte>, ghost t: Tree, ghost x: nat, ghost old_: seq<byte>)
    returns (r: Status, bytesWritten: nat, ghost t': Tree, ghost x': nat)
    requires fs.Ready() && |input| < U32
    requires !file.directory ==> WriteReady(fs.g, fs.Now(), t, file, x)
    requires !file.directory ==> Shows(fs.g, fs.Now(), ChainAt(t, file.firstCluster), file.size, old_)
    modifies fs`journal, fs.device, fs.sectorBuffer, file`firstCluster, file`size, file`position
    ensures fs.Ready()
    ensures file.directory || old(Writable(fs.g, fs.Now(), t, file.directoryCluster, file.entryIndex, file.firstCluster, file.size, x)) ==>
              AllConsistent(fs.g, old(fs.journal), fs.journal)
    ensures r == WriteStatus(fs.g, old(fs.Now()), file.directory, old(file.position), old(file.size), |input|,
                             |ChainAt(t, old(file.firstCluster))|)
    ensures !file.directory ==> WriteReady(fs.g, fs.Now(), t', file, x')
    ensures !file.directory && old(Writable(fs.g, fs.Now(), t, file.directoryCluster, file.entryIndex, file.firstCluster, file.size, x)) ==>
              Writable(fs.g, fs.Now(), t', file.directoryCluster, file.entryIndex, file.firstCluster, file.size, x')
    ensures file.directory || |input| == 0 || !Sensible(old(file.position), old(file.size), |input|) ==>
              && fs.Now() == old(fs.Now()) && fs.journal == old(fs.journal) && t' == t && x' == x && bytesWritten == 0
              && file.position == old(file.position) && file.size == old(file.size) && file.firstCluster == old(file.firstCluster)
    ensures r == Ok && |input| > 0 ==> x' == 0 && bytesWritten == |input| && file.position == old(file.position) + |input|
    ensures r == Ok && |input| > 0 ==>
              && file.size == |Spliced(old_, old(file.position), input)|
              && HandleOk(fs.g, fs.Now(), t', file)
    ensures r == Ok && |input| > 0 ==>
              WriteDone(fs.g, old(fs.Now()), t, fs.Now(), t', file.directoryCluster, file.entryIndex,
                        old(file.firstCluster), file.firstCluster, old(file.position), input, old_)
    ensures r != Ok ==> bytesWritten == 0 && file.position == old(file.position) && file.size == old(file.size)
    ensures r != Ok && !file.directory && Sensible(old(file.position), old(file.size), |input|) ==>
              WriteFailed(fs.g, old(fs.Now()), t, fs.Now(), t', old(file.firstCluster), x, file.firstCluster, x', old_)
    // When a request is granted, in plain numbers.
    ensures !file.directory && |input| > 0 ==>
              (r == Ok <==>
                && old(file.position) <= old(file.size) && old(file.position) + |input| <= 0xFFFF_FFFF
                && old(file.position) + |input|
                   <= (|ChainAt(t, old(file.firstCluster))| + FreeCount(old(fs.Now()).fat)) * (512 * fs.g.sectorsPerCluster))
  {
    hide Kept, ViewOf, AllSlots, Shape, OthersKept, OnlyFile, Shows, FreeCount, Safe, Housed, Accounted, SlotIs, Spliced, Quot,
         Writable, Stale, Working, AllConsistent, AllGrew, Books;
    r, bytesWritten, t', x' := NotAFile, 0, t, x;
    NothingYet(fs.g, fs.journal);
    if file.directory {
      return;
    }
    WriteStatusMeans(fs.g, fs.Now(), file.position, file.size, |input|, |ChainAt(t, file.firstCluster)|);
    if |input| == 0 {
      r := Ok;
      return;
    }
    r := Error;
    if file.position > file.size {
      return;
    }
    var oldSize, oldFirstCluster := file.size, file.firstCluster;
    var writeEnd := file.position + |input|;
    if writeEnd > 0xFFFF_FFFF {
      return;
    }
    ghost var v, j, d, i := fs.Now(), fs.journal, file.directoryCluster, file.entryIndex;
    ReadyFacts(fs.g, v, t, d, i, oldFirstCluster, oldSize, x);
    ShowsLength(fs.g, v, ChainAt(t, oldFirstCluster), oldSize, old_);
    if file.firstCluster < 2 {
      if file.size != 0 {
        return;
      }
      var newCluster;
      r, newCluster, t' := StartChain(fs, t);
      if r != Ok {
        NothingFree(fs.g, v, t, old_, writeEnd);
        return;
      }
      file.firstCluster := newCluster;
      x' := newCluster;
      StartedReady(fs.g, v, t, fs.Now(), t', newCluster, old_);
      StartedLoose(fs.g, v, t, fs.Now(), t', d, i, newCluster, j, fs.journal);
    } else {
      GivenReady(fs.g, v, t, file.firstCluster);
    }
    ghost var j1, t0 := fs.journal, t';
    r, bytesWritten, t' := WriteFrom(fs, file, input, oldSize, oldFirstCluster, v, t, t0, file.firstCluster, x', old_);
    if Writable(fs.g, v, t, d, i, oldFirstCluster, oldSize, x) {
      AllConsistentCompose(fs.g, j, j1, fs.journal);
    }
    if r == Ok {
      x' := 0;
      WrittenReady(fs.g, fs.Now(), t', d, i, file.firstCluster, file.size);
    }
  }

  /** Which requests are granted, in plain numbers. */
  lemma WriteStatusMeans(g: Geometry, v: View, position: nat, size: nat, n: nat, have: nat)
    requires g.Valid()
    ensures WriteStatus(g, v, true, position, size, n, have) == NotAFile
    ensures WriteStatus(g, v, false, position, size, n, have) in {Ok, Error} && WriteStatus(g, v, false, position, size, 0, have) == Ok
    ensures n > 0 ==>
              (WriteStatus(g, v, false, position, size, n, have) == Ok <==>
                && position <= size && position + n <= 0xFFFF_FFFF
                && position + n <= (have + FreeCount(v.fat)) * (512 * g.sectorsPerCluster))
  {
    hide FreeCount, Lacks;
    if n > 0 {
      LacksMeans(g, have, position + n, FreeCount(v.fat));
    }
  }

  /** Enough clusters are free if and only if all of them together with the chain have room for the file. */
  lemma LacksMeans(g: Geometry, have: nat, end: nat, free: nat)
    requires g.Valid() && end > 0
    ensures Lacks(g, have, end) <= free <==> end <= (have + free) * (512 * g.sectorsPerCluster)
  {
    hide Quot;
    QuotLess(end - 1, g.ClusterSize(), have + free);
    TimesIsProduct(have + free, g.ClusterSize());
  }

  /** What a file shows, on the raw disk. */
  lemma ShowsOnDisk(g: Geometry, d: Disk, ch: seq<nat>, b: seq<byte>)
    requires Fits(g, d) && Shows(g, ViewOf(g, d), ch, |b|, b)
    ensures forall i :: 0 <= i < |b| ==> ByteOnDisk(g, d, ch, i, b[i])
  {
    hide ViewOf, ByteOnDisk, ChainBytes;
    forall i | 0 <= i < |b| ensures ByteOnDisk(g, d, ch, i, b[i]) {
      ChainByteOnDisk(g, d, ch, i);
    }
  }

  /** After a write the input is on the disk from the position on, and everywhere else what the file held. */
  lemma WrittenOnDisk(g: Geometry, v: View, t: Tree, d: Disk, t': Tree, e: nat, i: nat, h: nat, h': nat,
                      pos: nat, input: seq<byte>, old_: seq<byte>)
    requires Fits(g, d) && WriteDone(g, v, t, ViewOf(g, d), t', e, i, h, h', pos, input, old_) && pos <= |old_|
    ensures var ch := ChainAt(t', h');
            && (forall k :: 0 <= k < |input| ==> ByteOnDisk(g, d, ch, pos + k, input[k]))
            && (forall k :: 0 <= k < |old_| && !(pos <= k < pos + |input|) ==> ByteOnDisk(g, d, ch, k, old_[k]))
  {
    hide ViewOf, ByteOnDisk, Shows, WellFormed, OnlyFile, Quot, Spliced;
    SplicedOnDisk(g, d, ChainAt(t', h'), pos, input, old_);
  }

  /** And the chain is as long as it was, or as short as the file's end allows. */
  lemma GrownMeans(g: Geometry, v: View, t: Tree, w: View, t': Tree, e: nat, i: nat, h: nat, h': nat,
                   pos: nat, input: seq<byte>, old_: seq<byte>)
    requires WriteDone(g, v, t, w, t', e, i, h, h', pos, input, old_) && pos <= |old_|
    ensures var n, size := |ChainAt(t', h')|, 512 * g.sectorsPerCluster;
            && ChainAt(t, h) <= ChainAt(t', h') && pos + |input| <= n * size
            && (n == |ChainAt(t, h)| || (n - 1) * size < pos + |input|)
  {
    hide Shows, WellFormed, OnlyFile, Quot, Spliced;
    var n, end := |ChainAt(t', h')|, pos + |input|;
    TimesIsProduct(n, g.ClusterSize());
    QuotLess(end - 1, g.ClusterSize(), n);
    TimesIsProduct(n - 1, g.ClusterSize());
    QuotLess(end - 1, g.ClusterSize(), n - 1);
  }

  lemma SplicedOnDisk(g: Geometry, d: Disk, ch: seq<nat>, pos: nat, input: seq<byte>, old_: seq<byte>)
    requires Fits(g, d) && pos <= |old_| && Shows(g, ViewOf(g, d), ch, |Spliced(old_, pos, input)|, Spliced(old_, pos, input))
    ensures forall i :: 0 <= i < |input| ==> ByteOnDisk(g, d, ch, pos + i, input[i])
    ensures forall i :: 0 <= i < |old_| && !(pos <= i < pos + |input|) ==> ByteOnDisk(g, d, ch, i, old_[i])
  {
    hide ViewOf, ByteOnDisk, Shows;
    var b := Spliced(old_, pos, input);
    ShowsOnDisk(g, d, ch, b);
    forall i | 0 <= i < |input| ensures ByteOnDisk(g, d, ch, pos + i, input[i]) {
      assert b[pos + i] == input[i];
      assert ByteOnDisk(g, d, ch, pos + i, b[pos + i]);
    }
    forall i | 0 <= i < |old_| && !(pos <= i < pos + |input|) ensures ByteOnDisk(g, d, ch, i, old_[i]) {
      assert b[i] == old_[i];
    }
  }

  /** What both kinds of readiness have in common. */
  lemma ReadyFacts(g: Geometry, v: View, t: Tree, d: nat, i: nat, h: nat, size: nat, x: nat)
    requires FileReady(g, v, t, d, i, h, size, x)
    ensures Books(g, v, t) && Shape(g, v, t) && 0 !in t.chains && size < U32
    ensures h == 0 || x != 0 || Stale(g, v, t, d, i, h, size, x) ==> size == 0
    ensures h != 0 ==> h in t.chains && h !in t.dirs && g.InRange(h) && |ChainAt(t, h)| > 0
    ensures h == 0 ==> x == 0
    ensures Writable(g, v, t, d, i, h, size, x) ==> Safe(g, v, t)
  {
    hide AllSlots, Accounted, SlotIs, Safe, Housed, SoundBut, HousedBut, FileEntry, Shape;
    if Writable(g, v, t, d, i, h, size, x) {
      WritableFacts(g, v, t, d, i, h, size, x);
      SlotSize(g, v, t, d, i, if x == 0 then h else 0, size);
    }
    ShapeFacts(g, v, t);
  }

  lemma SlotSize(g: Geometry, v: View, t: Tree, d: nat, i: nat, h: nat, size: nat)
    requires SlotIs(g, v, t, d, i, h, size)
    ensures size < U32
  {
  }

  /** A first cluster keeps a file as ready as it was. */
  lemma StartedLoose(g: Geometry, v: View, t: Tree, w: View, t': Tree, d: nat, i: nat, c: nat, before: seq<View>, after: seq<View>)
    requires FileReady(g, v, t, d, i, 0, 0, 0) && ChainGrew(g, v, t, w, t', c) && c !in t.chains && Books(g, w, t')
    requires AllGrew(g, v, t, before, after)
    ensures Writable(g, v, t, d, i, 0, 0, 0) ==>
              Writable(g, w, t', d, i, c, 0, c) && Safe(g, w, t') && AllConsistent(g, before, after)
    ensures Stale(g, v, t, d, i, 0, 0, 0) ==> Stale(g, w, t', d, i, c, 0, c)
  {
    hide AllSlots, Shape, Safe, Housed, Accounted, SoundBut, HousedBut, FileEntry, BytesAt, FatKept, Live, IsDirectory, ClusterOf,
         SizeOf, Grew, SameBytes;
    KeptGrew(g, v, t, w, t', c);
    ShapeFacts(g, w, t');
    if Writable(g, v, t, d, i, 0, 0, 0) {
      WorkingGrew(g, v, t, w, t', 0, c);
      GrewConsistent(g, v, t, before, after);
    }
    if Stale(g, v, t, d, i, 0, 0, 0) {
      NoHomeYet(g, v, t, 0, d, i, c);
      GrewBut(g, v, t, w, t', 0, c, d, i);
    }
  }

  lemma NoHomeYet(g: Geometry, v: View, t: Tree, x: nat, d: nat, i: nat, c: nat)
    requires InOrderBut(g, v, t, x, d, i) && c !in t.chains
    ensures c !in t.home
  {
    hide AllSlots, Shape, Accounted, SoundBut, FileEntry, Live, ClusterOf;
  }

  lemma WritableFacts(g: Geometry, v: View, t: Tree, d: nat, i: nat, h: nat, size: nat, x: nat)
    requires Writable(g, v, t, d, i, h, size, x)
    ensures Working(g, v, t, x) && Safe(g, v, t) && Shape(g, v, t) && 0 !in t.chains
    ensures SlotIs(g, v, t, d, i, if x == 0 then h else 0, size)
    ensures h == 0 || x != 0 ==> size == 0
    ensures h != 0 ==> h in t.chains && h !in t.dirs && g.InRange(h) && |ChainAt(t, h)| > 0
    ensures x != 0 ==> h == x
  {
    hide AllSlots, SoundIn, SizedIn, Accounted, SlotIs;
    ShapeFacts(g, v, t);
    SlotFacts(g, v, t, d, i, if x == 0 then h else 0, size);
  }

  lemma NothingFree(g: Geometry, v: View, t: Tree, old_: seq<byte>, end: nat)
    requires 0 !in t.chains && g.Valid() && end > 0 && Shows(g, v, ChainAt(t, 0), |old_|, old_)
    ensures |ChainAt(t, 0)| == 0 && Lacks(g, |ChainAt(t, 0)|, end) > 0
  {
  }

  lemma WrittenReady(g: Geometry, v: View, t: Tree, d: nat, i: nat, h: nat, size: nat)
    requires WellFormed(g, v, t) && SlotIs(g, v, t, d, i, h, size)
    ensures Writable(g, v, t, d, i, h, size, 0)
  {
    hide AllSlots, SlotIs, Safe, Housed, Accounted;
    WellFormedWorking(g, v, t);
  }

  /** A handle on an entry of a well-formed volume is ready; and one that is ready, with every chain named, is on a
      well-formed volume. With a chain not named no tree fits the volume. */
  lemma ReadyMeans(g: Geometry, v: View, t: Tree, d: nat, i: nat, h: nat, size: nat, x: nat)
    ensures Writable(g, v, t, d, i, h, size, 0) <==> WellFormed(g, v, t) && SlotIs(g, v, t, d, i, h, size)
    ensures Writable(g, v, t, d, i, h, size, x) && x != 0 ==> Orphaned(g, v, t, x)
    ensures Writable(g, v, t, d, i, h, size, x) && x != 0 ==> !exists tb :: WellFormed(g, v, tb) && tb.other == t.other
  {
    hide AllSlots, SlotIs, Safe, Housed, Accounted;
    if WellFormed(g, v, t) {
      WellFormedWorking(g, v, t);
    }
    if Writable(g, v, t, d, i, h, size, x) && x != 0 {
      OrphanIsLost(g, v, t, x);
    }
  }

  lemma WellFormedWorking(g: Geometry, v: View, t: Tree)
    requires WellFormed(g, v, t)
    ensures Working(g, v, t, 0) && 0 !in t.chains
  {
    hide AllSlots, SoundIn, SizedIn, Accounted;
    ShapeFacts(g, v, t);
  }

  lemma GivenReady(g: Geometry, v: View, t: Tree, h: nat)
    requires Shape(g, v, t) && h in t.chains && h !in t.dirs
    ensures OthersKept(g, v, t, v, t, h)
  {
    hide AllSlots;
    assert t.chains[h := t.chains[h]] == t.chains;
  }

  lemma StartedReady(g: Geometry, v: View, t: Tree, w: View, t': Tree, h: nat, old_: seq<byte>)
    requires ChainGrew(g, v, t, w, t', h) && t' == WithChain(t, h, [h]) && h !in t.chains && 0 !in t.chains
    requires Shows(g, v, ChainAt(t, 0), 0, old_)
    ensures OthersKept(g, v, t, w, t', h) && ChainAt(t, 0) <= ChainAt(t', h) && |ChainAt(t', h)| == 1
    ensures old_ == [] && ChainAt(t, 0) == [] && Shows(g, w, ChainAt(t', h), 0, old_)
  {
    hide AllSlots, ChainBytes;
    ShapeFacts(g, w, t');
    ChainPlaced(g, w, [h]);
  }

  /** The requests fat32_write accepts. */
  predicate Sensible(position: nat, size: nat, n: nat) {
    position <= size && position + n < U32
  }
}
