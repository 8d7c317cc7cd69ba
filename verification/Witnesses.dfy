/** Inputs on which the properties that do not always hold do fail, each on a volume that is well formed beforehand: a
    freshly formatted one, or one with a single file or directory. */
module Witnesses {
  import opened Bytes
  import opened Geometry
  import opened Volumes
  import opened Chains
  import opened Allocation
  import opened FileRead
  import opened Slots
  import opened Names83
  import opened Trees
  import opened TreeSteps
  import opened TreeChains
  import opened TreeUnique
  import opened TreeNames
  import opened SlotStore
  import opened FileWrite
  import opened Truncating
  import opened Paths
  import opened EmptyDirs
  import opened Plans
  import opened Locating
  import opened Creating
  import opened MakingDirs
  import Removing
  import opened Renaming
  import opened FileTree
  import opened TreeSpec
  import opened Refining
  import opened Formatted
  import opened Runs
  import opened Letters

  const A: byte := 65
  const D: byte := 68

  // ---------------------------------------------------------------- the first entry

  lemma EmptyRoot(g: Geometry, v: View)
    requires Empty(g, v)
    ensures Good(g, v, RootOnly(g)) && WellFormed(g, v, RootOnly(g)) && Shape(g, v, RootOnly(g))
    ensures var m := AllSlots(g, v, RootOnly(g));
            g.rootCluster in m && |m[g.rootCluster]| >= 2 && AllUnused(m[g.rootCluster])
  {
    hide AllSlots, Zeroed, AllUnused, TreeOf;
    EmptyIsGood(g, v);
    RootSlots(g, v);
    GoodFacts(g, v, RootOnly(g));
    RootSize(g, v);
  }

  lemma RootSize(g: Geometry, v: View)
    requires Empty(g, v) && Shape(g, v, RootOnly(g))
    ensures |AllSlots(g, v, RootOnly(g))[g.rootCluster]| >= 2
  {
    hide BytesAt, IsChain, Zeroed;
    TimesIsProduct(1, g.sectorsPerCluster);
  }

  /** The file "/A", and nothing else, is in the root. */
  ghost predicate OnlyA(g: Geometry, v: View, t: Tree) {
    Shape(g, v, t) && Accepted([A]) && Alone(AllSlots(g, v, t)[g.rootCluster], Encode([A]))
  }

  /** create "/A". */
  method CreateA(fs: Volume, file: FileHandle) returns (r: Status)
    requires fs.Ready() && Empty(fs.g, fs.Now())
    modifies fs`journal, fs.device, fs.sectorBuffer, file
    ensures fs.Ready() && r == Ok && WellFormed(fs.g, fs.Now(), RootOnly(fs.g)) && OnlyA(fs.g, fs.Now(), RootOnly(fs.g))
    ensures Writable(fs.g, fs.Now(), RootOnly(fs.g), fs.g.rootCluster, 0, 0, 0, 0) && fs.Now().fat == old(fs.Now()).fat
    ensures file.directoryCluster == fs.g.rootCluster && file.entryIndex == 0 && !file.directory
    ensures file.firstCluster == 0 && file.size == 0 && file.position == 0
  {
    hide Kept, ViewOf, AllSlots, Shape, Safe, Housed, Accounted, OneSlot, LeadsTo, LeadsNowhere, SlotIs, NewPlace, AllUnused,
         Zeroed, NameIn, Working, Alone, TreeOf, Encode;
    ghost var v, t := fs.Now(), RootOnly(fs.g);
    EmptyRoot(fs.g, v);
    EmptyPlace(AllSlots(fs.g, v, t), fs.g.rootCluster, A);
    LetterSplit(A);
    r := CreateFile(fs, PathTo(A), file, t);
    OneSlotRest(fs.g, v, t, fs.Now(), t, fs.g.rootCluster, 0, NewEntry(PathTo(A), ATTR_ARCHIVE, 0, 0));
    FirstEntry(fs.g, v, fs.Now());
    ReadyMeans(fs.g, fs.Now(), t, fs.g.rootCluster, 0, 0, 0, 0);
  }

  lemma FirstEntry(g: Geometry, v: View, w: View)
    requires Empty(g, v) && Accepted(NameIn(PathTo(A)))
    requires OneSlot(g, v, RootOnly(g), w, RootOnly(g), g.rootCluster, 0, NewEntry(PathTo(A), ATTR_ARCHIVE, 0, 0))
    ensures OnlyA(g, w, RootOnly(g))
  {
    hide AllSlots, Shape, OneSlot, Zeroed, Live, Encode, NameOf, ClusterOf, SizeOf, IsDirectory;
    var s := NewEntry(PathTo(A), ATTR_ARCHIVE, 0, 0);
    EmptyRoot(g, v);
    OneSlotFacts(g, v, RootOnly(g), w, RootOnly(g), g.rootCluster, 0, s);
    LetterSplit(A);
    NewEntryLive([A], ATTR_ARCHIVE, 0, 0);
    AloneAfterPut(AllSlots(g, v, RootOnly(g))[g.rootCluster], s);
  }

  // ---------------------------------------------------------------- mkdir under a name that begins with 0xE5

  /** On every freshly formatted volume that is not full, mkdir of the name 0xE5 loses a cluster. */
  lemma MkdirLeaks(g: Geometry, v: View)
    requires Empty(g, v) && FreeCount(v.fat) > 0
    ensures Good(g, v, RootOnly(g)) && StepStatus(g, v, RootOnly(g), MakeDirectory(PathTo(DELETED))) == Ok
    ensures Leaks(g, v, RootOnly(g), MakeDirectory(PathTo(DELETED)))
  {
    hide AllSlots, Shape, AllUnused, Zeroed, NewPlace, TreeOf, Good, StepStatus, FreeCount, Full, Strands;
    EmptyRoot(g, v);
    EmptyPlace(AllSlots(g, v, RootOnly(g)), g.rootCluster, DELETED);
    CreateStatus(g, v, RootOnly(g), MakeDirectory(PathTo(DELETED)));
    FullMeans(g, v);
    LetterSplit(DELETED);
  }

  // ---------------------------------------------------------------- a write that strands a chain

  /** create "/A", then a write that wants more clusters than there are: the one that was free first is lost. */
  method WriteStrands(fs: Volume, data: seq<byte>) returns (r: Status)
    requires fs.Ready() && Empty(fs.g, fs.Now()) && |data| < U32
    requires |data| > 0 && 0 < FreeCount(fs.Now().fat) < Lacks(fs.g, 0, |data|)
    modifies fs`journal, fs.device, fs.sectorBuffer
    ensures fs.Ready() && r == Error
    ensures !exists tb :: WellFormed(fs.g, fs.Now(), tb) && tb.other == RootOnly(fs.g).other
  {
    hide Kept, ViewOf, AllSlots, Shape, WellFormed, Zeroed, Writable, Shows, FreeCount, Lacks, OthersKept, OnlyA, AllConsistent;
    ghost var t := RootOnly(fs.g);
    var file := new FileHandle();
    r := CreateA(fs, file);
    ghost var v := fs.Now();
    NothingShows(fs.g, v, t);
    ghost var t', x;
    var n;
    r, n, t', x := Write(fs, file, data, t, 0, []);
    ReadyMeans(fs.g, fs.Now(), t', fs.g.rootCluster, 0, file.firstCluster, 0, x);
    StrandedOther(fs.g, v, t, fs.Now(), t', file.firstCluster);
  }

  lemma NothingShows(g: Geometry, v: View, t: Tree)
    requires WellFormed(g, v, t)
    ensures Shows(g, v, ChainAt(t, 0), 0, []) && |ChainAt(t, 0)| == 0
  {
    hide AllSlots, SoundIn, SizedIn, HousedIn, Accounted;
    ShapeFacts(g, v, t);
  }

  lemma StrandedOther(g: Geometry, v: View, t: Tree, w: View, t': Tree, h: nat)
    requires OthersKept(g, v, t, w, t', h)
    ensures t'.other == t.other
  {
    hide AllSlots, Shape, BytesAt, FatKept;
  }

  /** The same in terms of the runs: after create "/A" such a write strands a chain. */
  lemma StrandsThen(g: Geometry, v: View, data: seq<byte>) returns (w: View)
    requires Empty(g, v) && |data| < U32
    requires |data| > 0 && 0 < FreeCount(v.fat) < Lacks(g, 0, |data|)
    ensures Good(g, w, RootOnly(g)) && Strands(g, w, RootOnly(g), WriteAt(PathTo(A), 0, data))
  {
    hide AllSlots, Shape, AllUnused, Zeroed, NewPlace, TreeOf, Good, FreeCount, Strands, OneSlot, LeadsTo, SlotIs, NameIn, Lacks,
         LeadsNowhere, WellFormed, ChainSeen, FileSeen, Shows, Opened, NameOf;
    var t := RootOnly(g);
    EmptyRoot(g, v);
    EmptyPlace(AllSlots(g, v, t), g.rootCluster, A);
    LetterSplit(A);
    Created(g, v, t, PathTo(A), g.rootCluster, 0);
    var s := NewEntry(PathTo(A), ATTR_ARCHIVE, 0, 0);
    w := WithSlot(g, v, t, g.rootCluster, 0, s);
    OneSlotRest(g, v, t, w, t, g.rootCluster, 0, s);
    CreateRefines(g, v, t, w, PathTo(A), g.rootCluster, 0);
    OpenedEmpty(g, w, t, PathTo(A), g.rootCluster, 0);
    OpenedStatus(g, w, t, WriteAt(PathTo(A), 0, data), g.rootCluster, 0, 0, []);
    NothingShows(g, w, t) by { GoodFacts(g, w, t); }
  }

  lemma OpenedEmpty(g: Geometry, v: View, t: Tree, path: Text, d: nat, i: nat)
    requires Good(g, v, t) && SlotIs(g, v, t, d, i, 0, 0) && LeadsTo(g, v, t, path, d, i)
    ensures Opened(g, v, t, path, d, i, 0, [])
  {
    hide AllSlots, Shape, TreeOf, Good, SlotIs, LeadsTo, FileSeen, NameOf, Shows, ChainSeen, BytesOf;
    OpenedSeen(g, v, t, path, d, i, 0, 0);
    assert BytesOf(g, v, t, 0, 0) == [];
    ChainSeenAt(g, v, t, path, d, i, 0, 0);
  }

  /** A write of as many clusters as the volume has. */
  function Huge(): seq<byte> {
    Zeros(68768 * 512)
  }

  lemma HugeLacks(g: Geometry)
    requires g.Valid() && g.ClusterSize() == 512
    ensures 0 < |Huge()| < U32 && Lacks(g, 0, |Huge()|) == 68768
  {
    TimesIsProduct(68767, 512);
    QuotRemUnique(|Huge()| - 1, 512, 68767, 511);
  }

  /** There are such volumes and such writes. */
  lemma StrandsSomewhere() returns (g: Geometry, w: View)
    ensures Good(g, w, RootOnly(g)) && Strands(g, w, RootOnly(g), WriteAt(PathTo(A), 0, Huge()))
  {
    hide Good, Strands, Huge, Empty, FreeCount, Geometry.Valid, Lacks;
    g := GeometryExists();
    var v := EmptyExists(g);
    EmptyFree(g, v);
    HugeLacks(g);
    w := StrandsThen(g, v, Huge());
  }

  /** And on a disk just formatted, too. */
  method WriteStrandsOnceFormatted() returns (fs: Volume, r: Status)
    ensures fresh(fs) && fs.Ready() && r == Error
    ensures !exists tb :: WellFormed(fs.g, fs.Now(), tb) && tb.other == RootOnly(fs.g).other
  {
    hide Kept, ViewOf, WellFormed, Empty, FreeCount, Lacks, Huge, RootOnly;
    fs := Format();
    HugeLacks(fs.g);
    r := WriteStrands(fs, Huge());
  }

  // ---------------------------------------------------------------- a file with bytes

  /** create "/A" and a first write that finds its clusters. */
  method FileA(fs: Volume, data: seq<byte>) returns (file: FileHandle, ghost t: Tree)
    requires fs.Ready() && Empty(fs.g, fs.Now()) && |data| < U32
    requires |data| > 0 && Lacks(fs.g, 0, |data|) <= FreeCount(fs.Now().fat)
    modifies fs`journal, fs.device, fs.sectorBuffer
    ensures fresh(file) && fs.Ready() && WellFormed(fs.g, fs.Now(), t) && t.other == RootOnly(fs.g).other
    ensures HandleOk(fs.g, fs.Now(), t, file) && Shows(fs.g, fs.Now(), ChainAt(t, file.firstCluster), file.size, data)
    ensures OnlyA(fs.g, fs.Now(), t) && file.directoryCluster == fs.g.rootCluster && file.entryIndex == 0
    ensures file.size == |data| && file.firstCluster != 0 && !file.directory
  {
    hide Kept, ViewOf, AllSlots, Shape, WellFormed, Zeroed, Writable, Shows, FreeCount, Lacks, OnlyFile, OnlyA, AllConsistent, SlotIs,
         WriteFailed, Spliced;
    file := new FileHandle();
    t := RootOnly(fs.g);
    var r := CreateA(fs, file);
    ghost var v := fs.Now();
    NothingShows(fs.g, v, t);
    ghost var t', x;
    var n;
    r, n, t', x := Write(fs, file, data, t, 0, []);
    t := t';
    ReadyMeans(fs.g, fs.Now(), t', fs.g.rootCluster, 0, file.firstCluster, file.size, 0);
    WrittenA(fs.g, v, RootOnly(fs.g), fs.Now(), t', file.firstCluster, data);
  }

  lemma WrittenA(g: Geometry, v: View, t: Tree, w: View, t': Tree, h: nat, data: seq<byte>)
    requires OnlyA(g, v, t) && WriteDone(g, v, t, w, t', g.rootCluster, 0, 0, h, 0, data, [])
    ensures OnlyA(g, w, t') && t'.other == t.other && h != 0 && Spliced([], 0, data) == data
  {
    hide AllSlots, Shape, SoundIn, SizedIn, HousedIn, Accounted, Shows, OnlyFile, Live, NameOf, Encode, IsDirectory, Quot,
         SameButExtent;
    OnlyFileFacts(g, v, t, w, t', g.rootCluster, 0, h);
    OnlyFileOther(g, v, t, w, t', g.rootCluster, 0, h);
    var m, m' := AllSlots(g, v, t), AllSlots(g, w, t');
    SameName(m[g.rootCluster][0], m'[g.rootCluster][0]);
    PutShape(m, g.rootCluster, 0, m'[g.rootCluster][0]);
    ShapeFacts(g, w, t');
  }

  // ---------------------------------------------------------------- truncation

  /** create "/A", one byte, truncate to 0: no tree fits the volume any more. */
  method TruncateLeavesNothing(fs: Volume) returns (r: Status)
    requires fs.Ready() && Empty(fs.g, fs.Now()) && FreeCount(fs.Now().fat) > 0
    modifies fs`journal, fs.device, fs.sectorBuffer
    ensures fs.Ready() && r == Ok && !exists tb :: WellFormed(fs.g, fs.Now(), tb)
  {
    hide Kept, ViewOf, AllSlots, Shape, WellFormed, Zeroed, Shows, FreeCount, OnlyA, SlotIs, TruncateDone, ZeroDone;
    OneLacks(fs.g, 1);
    var file, t := FileA(fs, [0]);
    ghost var t';
    r, t' := Truncate(fs, file, 0, t, [0]);
  }

  lemma OneLacks(g: Geometry, n: nat)
    requires g.Valid() && 0 < n <= g.ClusterSize()
    ensures Lacks(g, 0, n) == 1
    ensures Lacks(g, 0, g.ClusterSize() + 1) == 2
  {
    QuotRemUnique(n - 1, g.ClusterSize(), 0, n - 1);
    QuotRemUnique(g.ClusterSize(), g.ClusterSize(), 1, 0);
  }

  /** A byte more than a cluster. */
  function Long(g: Geometry): seq<byte> {
    Zeros(g.ClusterSize() + 1)
  }

  /** create "/A", a byte more than a cluster, truncate to 1: a boundary on the way is not consistent, although the volume
      is well formed before and after. */
  method TruncateIsNotCalm(fs: Volume)
    returns (r: Status, file: FileHandle, ghost before: seq<View>, ghost v: View, ghost t: Tree, ghost t': Tree)
    requires fs.Ready() && Empty(fs.g, fs.Now()) && FreeCount(fs.Now().fat) >= 2
    modifies fs`journal, fs.device, fs.sectorBuffer
    ensures fs.Ready() && r == Ok && WellFormed(fs.g, fs.Now(), t')
    ensures AllSound(fs.g, before, fs.journal) && !AllConsistent(fs.g, before, fs.journal)
    ensures WellFormed(fs.g, v, t) && |Long(fs.g)| == fs.g.ClusterSize() + 1
    ensures TruncateDone(fs.g, v, t, fs.Now(), t', fs.g.rootCluster, 0, file.firstCluster, 1, Long(fs.g))
  {
    hide Kept, ViewOf, AllSlots, Shape, WellFormed, Zeroed, Shows, FreeCount, OnlyA, SlotIs, ZeroDone, AllSound, AllConsistent, OnlyFile,
         Quot, TruncateDone;
    OneLacks(fs.g, 1);
    OneKept(fs.g);
    file, t := FileA(fs, Long(fs.g));
    before, v := fs.journal, fs.Now();
    r, t' := Truncate(fs, file, 1, t, Long(fs.g));
    CutWell(fs.g, v, t, fs.Now(), t', fs.g.rootCluster, 0, file.firstCluster, 1, Long(fs.g));
  }

  lemma CutWell(g: Geometry, v: View, t: Tree, w: View, t': Tree, d: nat, i: nat, h: nat, size: nat, b: seq<byte>)
    requires TruncateDone(g, v, t, w, t', d, i, h, size, b)
    ensures WellFormed(g, w, t')
  {
    hide WellFormed, OnlyFile, Shows, Quot;
  }

  lemma OneKept(g: Geometry)
    requires g.Valid()
    ensures RoomKept(g, 1) == g.ClusterSize() && g.ClusterSize() + 1 < U32
  {
    QuotRemUnique(0, g.ClusterSize(), 0, 0);
    TimesIsProduct(1, g.sectorsPerCluster);
  }

  // ---------------------------------------------------------------- rename to a name that begins with 0xE5

  lemma RenamePlaces(m: Dirs, root: nat)
    requires root in m && Accepted([A]) && Alone(m[root], Encode([A])) && !IsDirectory(m[root][0])
    ensures RenameMove(m, root, PathTo(A), PathTo(DELETED)) == Move(Place(root, 0), Place(root, 1))
  {
    hide NewPlace, OldPlace, Encode, Split, Accepted, Alone, IsDirectory;
    LetterSplit(A);
    LetterSplit(DELETED);
    LetterName(A);
    AlonePlace(m, root, A);
    BesidePlace(m, root, Encode([A]), DELETED);
  }

  lemma OnlyAFacts(g: Geometry, v: View, t: Tree)
    requires OnlyA(g, v, t)
    ensures Shape(g, v, t) && g.rootCluster in t.dirs && Accepted([A])
    ensures Alone(AllSlots(g, v, t)[g.rootCluster], Encode([A]))
  {
    hide AllSlots, Shape, Alone, Encode, Accepted;
    ShapeFacts(g, v, t);
  }

  /** create "/A", one byte, rename to the name 0xE5: the file's cluster is lost. */
  method RenameLoses(fs: Volume) returns (r: Status)
    requires fs.Ready() && Empty(fs.g, fs.Now()) && FreeCount(fs.Now().fat) > 0
    modifies fs`journal, fs.device, fs.sectorBuffer
    ensures fs.Ready() && r == Ok
    ensures !exists tb :: WellFormed(fs.g, fs.Now(), tb) && tb.other == RootOnly(fs.g).other
  {
    hide Kept, ViewOf, AllSlots, Shape, SoundIn, SizedIn, Housed, Accounted, Zeroed, Shows, FreeCount, OnlyA, RenameMove, EntryMoved,
         Orphaned, ClusterOf, SizeOf, IsDirectory, Live, NameIn, LeadsTo, LeadsNowhere;
    OneLacks(fs.g, 1);
    var file, t := FileA(fs, [0]);
    OnlyAFacts(fs.g, fs.Now(), t);
    RenamePlaces(AllSlots(fs.g, fs.Now(), t), fs.g.rootCluster);
    LetterSplit(DELETED);
    ghost var t', d0, i0, d, i;
    r, t', d0, i0, d, i := RenameFile(fs, PathTo(A), PathTo(DELETED), t);
  }

  // ---------------------------------------------------------------- rmdir of a directory that holds "..A"

  function DotDotA(): Name83 {
    [DOT, DOT, A] + Spaces(8)
  }

  lemma DotDotALive(e: nat)
    requires 0 < e < U32
    ensures var s := EntrySlot(DotDotA(), ATTR_ARCHIVE, e, 0);
            && Live(s) && Ignored(s) && !IsDirectory(s) && ClusterOf(s) == e && SizeOf(s) == 0 && s[0] == DOT
  {
    hide ClusterOf, SizeOf;
    EntrySlotFields(DotDotA(), ATTR_ARCHIVE, e, 0);
    var s := EntrySlot(DotDotA(), ATTR_ARCHIVE, e, 0);
    assert s[0] == NameOf(s)[0] && s[1] == NameOf(s)[1] && s[2] == NameOf(s)[2];
  }

  /** The slots of a fresh directory with such an entry behind "." and "..". */
  lemma FreshWith(ss: seq<Slot>, c: nat, parent: nat, e: nat)
    requires FreshDir(ss, c, parent) && |ss| > 3 && 0 < e < U32
    ensures FirstFree(ss, 2) && LooksEmpty(ss[2 := EntrySlot(DotDotA(), ATTR_ARCHIVE, e, 0)])
  {
    hide DotSlot, Ignored, EntrySlot, IsLong, IsLabel, IsDot, IsDirectory, ClusterOf, SizeOf, DotDotA;
    DotSlotFacts(1, c);
    DotSlotFacts(2, parent);
    DotDotALive(e);
    var ss' := ss[2 := EntrySlot(DotDotA(), ATTR_ARCHIVE, e, 0)];
    assert ss'[3] == Zeros(32);
    assert EndFrom(ss', 0) <= 3;
    forall i | 0 <= i < |Front(ss')| ensures Ignored(ss'[i]) {
      assert i < 3;
    }
  }

  /** The directory "/D" at cluster c, freshly made, and nothing else, is in the root. */
  ghost predicate OnlyD(g: Geometry, v: View, t: Tree, c: nat) {
    && Shape(g, v, t) && Accepted([D]) && c < U32 && c != g.rootCluster && c in t.dirs
    && var m := AllSlots(g, v, t);
       && Alone(m[g.rootCluster], Encode([D])) && IsDirectory(m[g.rootCluster][0]) && ClusterOf(m[g.rootCluster][0]) == c
       && |m[c]| > 3 && FreshDir(m[c], c, g.rootCluster)
  }

  /** mkdir "/D" on a freshly formatted volume. */
  method MakeD(fs: Volume) returns (ghost t: Tree, ghost c: nat)
    requires fs.Ready() && Empty(fs.g, fs.Now()) && FreeCount(fs.Now().fat) >= 2
    modifies fs`journal, fs.device, fs.sectorBuffer
    ensures fs.Ready() && WellFormed(fs.g, fs.Now(), t) && t.other == RootOnly(fs.g).other
    ensures OnlyD(fs.g, fs.Now(), t, c) && FreeCount(fs.Now().fat) >= 1
  {
    hide Kept, ViewOf, AllSlots, Shape, WellFormed, Zeroed, FreeCount, NewPlace, AllUnused, TreeOf, NameIn, LeadsTo, LeadsNowhere,
         NothingMade, DirectoryMade, OnlyD, Full, Good;
    ghost var v, t0 := fs.Now(), RootOnly(fs.g);
    EmptyRoot(fs.g, v);
    EmptyPlace(AllSlots(fs.g, v, t0), fs.g.rootCluster, D);
    LetterSplit(D);
    FullMeans(fs.g, v);
    var r;
    ghost var d, i;
    r, t, d, i, c := Mkdir(fs, PathTo(D), t0);
    MadeD(fs.g, v, fs.Now(), t, c);
  }

  lemma MadeD(g: Geometry, v: View, w: View, t: Tree, c: nat)
    requires Empty(g, v) && DirectoryMade(g, v, RootOnly(g), w, t, PathTo(D), g.rootCluster, 0, c)
    ensures OnlyD(g, w, t, c) && t.other == RootOnly(g).other && FreeCount(w.fat) == FreeCount(v.fat) - 1
  {
    hide AllSlots, Shape, Zeroed, FreshDir, SameBytes, Live, Encode, NameOf, ClusterOf, SizeOf, IsDirectory, FreeCount, Good, TreeOf;
    var s := NewEntry(PathTo(D), ATTR_DIRECTORY, c, 0);
    EmptyRoot(g, v);
    LetterSplit(D);
    MadeFacts(g, v, RootOnly(g), w, t, PathTo(D), g.rootCluster, 0, c);
    NewEntryLive([D], ATTR_DIRECTORY, c, 0);
    AloneAfterPut(AllSlots(g, v, RootOnly(g))[g.rootCluster], s);
    ShapeFacts(g, w, t);
    OneClusterMany(g, w, t, c);
    OneTaken(v.fat, c, g.rootCluster);
  }

  lemma OneClusterMany(g: Geometry, v: View, t: Tree, d: nat)
    requires Shape(g, v, t) && d in t.dirs && |t.chains[d]| == 1
    ensures |AllSlots(g, v, t)[d]| > 3
  {
    hide IsChain, BytesAt;
    TimesIsProduct(1, g.sectorsPerCluster);
  }

  /** The directory "/D" looks empty but holds a live entry that has a chain. */
  ghost predicate SeemsEmpty(g: Geometry, v: View, t: Tree, c: nat) {
    && Shape(g, v, t) && Accepted([D]) && c in t.dirs
    && var m := AllSlots(g, v, t);
       && Alone(m[g.rootCluster], Encode([D])) && IsDirectory(m[g.rootCluster][0]) && ClusterOf(m[g.rootCluster][0]) == c
       && LooksEmpty(m[c]) && !NothingBelow(m, c)
  }

  lemma DottedNameable(g: Geometry, t: Tree, m: Dirs, c: nat, e: nat)
    requires c in m && c in t.dirs && |m[c]| > 2 && FirstFree(m[c], 2) && m[c][2] == Zeros(32) && 0 < e < U32
    requires e !in t.chains && e !in t.dirs && e != g.rootCluster
    ensures Nameable(g, WithChain(t, e, [e]), m, c, 2, EntrySlot(DotDotA(), ATTR_ARCHIVE, e, 0), e)
  {
    hide EntrySlot, ClusterOf, SizeOf, DotDotA, FirstFree;
    DotDotALive(e);
  }

  lemma DSlots(g: Geometry, v: View, t: Tree, c: nat)
    requires OnlyD(g, v, t, c)
    ensures Shape(g, v, t) && c in t.dirs && c != g.rootCluster && c < U32
    ensures var m := AllSlots(g, v, t); |m[c]| > 3 && FreshDir(m[c], c, g.rootCluster) && m[c][2] == Zeros(32)
  {
    hide AllSlots, Shape, DotSlot, Alone, ClusterOf, IsDirectory;
  }

  lemma ClusterBound(g: Geometry, c: nat)
    requires g.Valid() && g.InRange(c)
    ensures 0 < c < U32
  {
  }

  /** An entry "..A" with a cluster of its own leaves the volume well formed. */
  lemma DottedWell(g: Geometry, v: View, t: Tree, c: nat, w: View, e: nat)
    requires WellFormed(g, v, t) && OnlyD(g, v, t, c) && Took(g, v, w, e) && 0 < e < U32
    ensures Shape(g, w, WithChain(t, e, [e])) && c in t.dirs && 2 < |AllSlots(g, w, WithChain(t, e, [e]))[c]|
    ensures var t1 := WithChain(t, e, [e]);
            var u, t2 := WithSlot(g, w, t1, c, 2, EntrySlot(DotDotA(), ATTR_ARCHIVE, e, 0)), At(t1, e, c, 2);
            WellFormed(g, u, t2) && SeemsEmpty(g, u, t2, c) && t2.other == t.other
  {
    hide AllSlots, Shape, SoundIn, SizedIn, HousedIn, Accounted, OnlyD, Took, FreshDir, EntrySlot, DotDotA, FirstFree, Nameable,
         WithSlot, At, SeemsEmpty, OthersFit;
    var t1, s := WithChain(t, e, [e]), EntrySlot(DotDotA(), ATTR_ARCHIVE, e, 0);
    DSlots(g, v, t, c);
    ShapeFacts(g, v, t);
    NewChain(g, v, t, w, e);
    OwnChainSlots(g, v, t, w, e);
    ShapeFacts(g, w, t1);
    var m := AllSlots(g, w, t1);
    FreshWith(m[c], c, g.rootCluster, e);
    DottedNameable(g, t, m, c, e);
    SizedOthers(g, t1, m, c, 2);
    DotDotALive(e);
    Named(g, w, t1, m, c, 2, s, e);
    WithSlotEffect(g, w, t1, c, 2, s);
    HomeFree(g, WithSlot(g, w, t1, c, 2, s), t1, e, c, 2);
    DottedSeems(g, v, t, c, WithSlot(g, w, t1, c, 2, s), At(t1, e, c, 2), e);
  }

  lemma DottedSeems(g: Geometry, v: View, t: Tree, c: nat, u: View, t2: Tree, e: nat)
    requires OnlyD(g, v, t, c) && Shape(g, u, t2) && t2.dirs == t.dirs && 0 < e < U32
    requires var m := AllSlots(g, v, t);
             c in m && 2 < |m[c]| && AllSlots(g, u, t2) == Put(m, c, 2, EntrySlot(DotDotA(), ATTR_ARCHIVE, e, 0))
    ensures SeemsEmpty(g, u, t2, c)
  {
    hide AllSlots, Shape, FreshDir, EntrySlot, DotDotA, Live, ClusterOf, IsDirectory, LooksEmpty, FirstFree, Encode, Accepted, Alone;
    var m, s := AllSlots(g, v, t), EntrySlot(DotDotA(), ATTR_ARCHIVE, e, 0);
    FreshWith(m[c], c, g.rootCluster, e);
    DotDotALive(e);
    PutShape(m, c, 2, s);
    LiveAfterPut(m, c, 2, s, c, 2);
  }

  /** A volume with such a directory: mkdir "/D", a cluster, and the entry "..A" for it. */
  method MakeDotted(fs: Volume) returns (ghost t: Tree, ghost c: nat)
    requires fs.Ready() && Empty(fs.g, fs.Now()) && FreeCount(fs.Now().fat) >= 2
    modifies fs`journal, fs.device, fs.sectorBuffer
    ensures fs.Ready() && WellFormed(fs.g, fs.Now(), t) && t.other == RootOnly(fs.g).other && SeemsEmpty(fs.g, fs.Now(), t, c)
  {
    hide Kept, ViewOf, AllSlots, Shape, SoundIn, SizedIn, Housed, Accounted, Zeroed, FreeCount, OnlyD, SeemsEmpty, Full, Confined,
         OldPlace, ClusterOf, SizeOf, IsDirectory, Live, WithSlot, EntrySlot;
    t, c := MakeD(fs);
    ghost var v := fs.Now();
    DPlace(fs.g, v, t, c);
    var r, dir, cluster, size, isDirectory, entryIndex := FindOld(fs, PathTo(D), t);
    FullMeans(fs.g, v);
    var e;
    r, e := AllocateCluster(fs);
    assert Took(fs.g, v, fs.Now(), e) by { FittedOf(fs.g, v, t); }
    ShapeFacts(fs.g, v, t);
    ClusterBound(fs.g, e);
    DottedWell(fs.g, v, t, c, fs.Now(), e);
    t := WithChain(t, e, [e]);
    r := WriteEntryData(fs, cluster, 2, DotDotA(), ATTR_ARCHIVE, e, 0, t);
    t := At(t, e, c, 2);
  }

  lemma DPlace(g: Geometry, v: View, t: Tree, c: nat)
    requires OnlyD(g, v, t, c)
    ensures Shape(g, v, t) && g.rootCluster in t.dirs && 0 < |AllSlots(g, v, t)[g.rootCluster]|
    ensures OldPlace(AllSlots(g, v, t), g.rootCluster, PathTo(D)) == Place(g.rootCluster, 0)
    ensures ClusterOf(AllSlots(g, v, t)[g.rootCluster][0]) == c
  {
    hide AllSlots, Shape, OldPlace, FreshDir, ClusterOf, IsDirectory, Encode, Accepted;
    ShapeFacts(g, v, t);
    AlonePlace(AllSlots(g, v, t), g.rootCluster, D);
  }

  lemma SeemingPlace(g: Geometry, v: View, t: Tree, c: nat)
    requires SeemsEmpty(g, v, t, c)
    ensures Shape(g, v, t) && RemoveDirectoryPlace(AllSlots(g, v, t), g.rootCluster, PathTo(D)) == Place(g.rootCluster, 0)
    ensures g.rootCluster in t.dirs && 0 < |AllSlots(g, v, t)[g.rootCluster]|
    ensures ClusterOf(AllSlots(g, v, t)[g.rootCluster][0]) == c && !NothingBelow(AllSlots(g, v, t), c)
  {
    hide AllSlots, Shape, OldPlace, ClusterOf, IsDirectory, Encode, Accepted, LooksEmpty, NothingBelow;
    ShapeFacts(g, v, t);
    AlonePlace(AllSlots(g, v, t), g.rootCluster, D);
  }

  /** rmdir "/D" there: it succeeds, and the cluster of "..A" is lost. */
  method RmdirLoses(fs: Volume) returns (r: Status)
    requires fs.Ready() && Empty(fs.g, fs.Now()) && FreeCount(fs.Now().fat) >= 2
    modifies fs`journal, fs.device, fs.sectorBuffer
    ensures fs.Ready() && r == Ok
    ensures !exists tb :: WellFormed(fs.g, fs.Now(), tb) && tb.other == RootOnly(fs.g).other
  {
    hide Kept, ViewOf, AllSlots, Shape, SoundIn, SizedIn, Housed, Accounted, Zeroed, FreeCount, SeemsEmpty, RemoveDirectoryPlace,
         ClusterOf, Live, NothingBelow, LooksEmpty, NoLive, Removing.EntryShed, Removing.EntryGone;
    ghost var t, c := MakeDotted(fs);
    SeemingPlace(fs.g, fs.Now(), t, c);
    ghost var t', d, i, h;
    r, t', d, i, h := Removing.RemoveDirectory(fs, PathTo(D), t);
  }
}
