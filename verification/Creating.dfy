/** fat32_create_file. */
module Creating {
  import opened Bytes
  import opened Geometry
  import opened Volumes
  import opened FileRead
  import opened Slots
  import opened Names83
  import opened LongNames
  import opened Trees
  import opened TreeSteps
  import opened TreeUnique
  import opened TreeNames
  import opened SlotStore
  import opened FileWrite
  import opened Paths
  import opened Plans
  import opened DeadNames
  import opened Locating

  /** An entry for the last component of a path. */
  function NewEntry(path: Text, attributes: byte, cluster: nat, size: nat): Slot
    requires Accepted(NameIn(path)) && cluster < U32 && size < U32
  {
    EntrySlot(Encode(NameIn(path)), attributes, cluster, size)
  }

  lemma NameInIsText(path: Text)
    ensures 0 !in NameIn(path)
  {
  }

  lemma NewPlaceAccepted(m: Dirs, root: nat, path: Text)
    requires NewPlace(m, root, path).Place?
    ensures Accepted(NameIn(path))
  {
    hide Resolve, Find, FreeIndex, SplitInto;
  }

  /** (w, t') is (v, t) with slot i of directory d replaced by s, and nothing else. */
  ghost predicate OneSlot(g: Geometry, v: View, t: Tree, w: View, t': Tree, d: nat, i: nat, s: Slot) {
    && Shape(g, v, t) && d in t.dirs && i < |AllSlots(g, v, t)[d]|
    && w == WithSlot(g, v, t, d, i, s) && t'.chains == t.chains && t'.dirs == t.dirs && t'.other == t.other
    && Shape(g, w, t') && AllSlots(g, w, t') == Put(AllSlots(g, v, t), d, i, s)
    && forall k | k in t.chains && k !in t.dirs :: SameBytes(g, v, w, t.chains[k])
  }

  lemma WithSlotFat(g: Geometry, v: View, t: Tree, d: nat, i: nat, s: Slot)
    requires Shape(g, v, t) && d in t.dirs && i < |AllSlots(g, v, t)[d]|
    ensures WithSlot(g, v, t, d, i, s).fat == v.fat
  {
    WithSlotEffect(g, v, t, d, i, s);
  }

  lemma SameBytesTwice(g: Geometry, u: View, v: View, w: View, ch: seq<nat>)
    requires SameBytes(g, u, v, ch) && SameBytes(g, v, w, ch)
    ensures SameBytes(g, u, w, ch)
  {
  }

  lemma OneSlotWritten(g: Geometry, v: View, t: Tree, d: nat, i: nat, s: Slot)
    requires Shape(g, v, t) && d in t.dirs && i < |AllSlots(g, v, t)[d]|
    ensures OneSlot(g, v, t, WithSlot(g, v, t, d, i, s), t, d, i, s)
  {
    hide AllSlots, Shape, WithSlot, Put, BytesAt;
    var w := WithSlot(g, v, t, d, i, s);
    WithSlotEffect(g, v, t, d, i, s);
    forall k | k in t.chains && k !in t.dirs ensures SameBytes(g, v, w, t.chains[k]) {
      SameBytesAt(g, v, w, t, k);
    }
  }

  /** A new entry for the path would go to slot i of directory d. */
  ghost predicate GoesTo(g: Geometry, v: View, t: Tree, path: Text, d: nat, i: nat) {
    Shape(g, v, t) && NewPlace(AllSlots(g, v, t), g.rootCluster, path) == Place(d, i)
  }

  /** The path leads to the entry in slot i of directory d. */
  ghost predicate LeadsTo(g: Geometry, v: View, t: Tree, path: Text, d: nat, i: nat) {
    Shape(g, v, t) && Resolve(AllSlots(g, v, t), g.rootCluster, path) == AtEntry(d, i)
  }

  /** The path leads to nothing. */
  ghost predicate LeadsNowhere(g: Geometry, v: View, t: Tree, path: Text) {
    Shape(g, v, t) && Resolve(AllSlots(g, v, t), g.rootCluster, path) == Unresolved(NotFound)
  }

  /** The conditions for naming a new, empty file. */
  lemma NewFileNameable(g: Geometry, t: Tree, m: Dirs, d: nat, i: nat, s: Slot)
    requires d in m && FirstFree(m[d], i) && 0 !in t.chains
    requires Live(s) && !IsDirectory(s) && ClusterOf(s) == 0 && SizeOf(s) == 0
    ensures Nameable(g, t, m, d, i, s, 0)
  {
    FirstFreeIsFree(m[d], i);
  }

  lemma GoesToFacts(g: Geometry, v: View, t: Tree, path: Text, d: nat, i: nat)
    requires GoesTo(g, v, t, path, d, i)
    ensures Shape(g, v, t) && d in t.dirs && i < |AllSlots(g, v, t)[d]| && FirstFree(AllSlots(g, v, t)[d], i)
    ensures Accepted(NameIn(path)) && 0 !in NameIn(path)
  {
    hide AllSlots, Resolve, NewPlace, FirstFree;
    NewPlaceAccepted(AllSlots(g, v, t), g.rootCluster, path);
    NameInIsText(path);
    FirstFreeIsFree(AllSlots(g, v, t)[d], i);
  }

  lemma OneSlotRest(g: Geometry, v: View, t: Tree, w: View, t': Tree, d: nat, i: nat, s: Slot)
    requires OneSlot(g, v, t, w, t', d, i, s)
    ensures t'.chains == t.chains && t'.dirs == t.dirs && t'.other == t.other && w.fat == v.fat
    ensures forall k | k in t.chains && k !in t.dirs :: SameBytes(g, v, w, t.chains[k])
  {
    hide Shape, AllSlots, WithSlot, Put, SameBytes;
    WithSlotFat(g, v, t, d, i, s);
  }

  lemma OneSlotFacts(g: Geometry, v: View, t: Tree, w: View, t': Tree, d: nat, i: nat, s: Slot)
    requires OneSlot(g, v, t, w, t', d, i, s)
    ensures Shape(g, v, t) && Shape(g, w, t') && d in t.dirs && i < |AllSlots(g, v, t)[d]|
    ensures AllSlots(g, w, t') == Put(AllSlots(g, v, t), d, i, s)
  {
    hide Shape, AllSlots, WithSlot, Put;
  }

  /** A name that begins with 0xE5 makes a deleted entry: nothing has changed that the tree or a path could show. */
  lemma DeadEntry(g: Geometry, v: View, t: Tree, path: Text, d: nat, i: nat, s: Slot)
    requires Safe(g, v, t) && GoesTo(g, v, t, path, d, i) && s[0] == DELETED
    ensures d in t.dirs && i < |AllSlots(g, v, t)[d]|
    ensures var w := WithSlot(g, v, t, d, i, s);
            && Safe(g, w, t) && AllSlots(g, w, t) == Put(AllSlots(g, v, t), d, i, s) && LeadsNowhere(g, w, t, path)
            && (forall x | Housed(g, v, t, x) :: Housed(g, w, t, x))
            && (Accounted(v, t) ==> Accounted(w, t))
            && (DirsNamed(g, t, AllSlots(g, v, t)) ==> DirsNamed(g, t, AllSlots(g, w, t)))
  {
    hide AllSlots, Shape, WithSlot, SoundIn, HousedIn, SizedIn, Accounted, NewPlace, Resolve, FirstFree, DirsNamed, NameIn,
         Accepted;
    var m := AllSlots(g, v, t);
    ShapeFacts(g, v, t);
    GoesToFacts(g, v, t, path, d, i);
    DeletedIsDead(s);
    DeadPut(g, v, t, m, d, i, s);
    DeadEntryMissing(t, m, Put(m, d, i, s), g.rootCluster, path, s);
  }

  lemma DeletedIsDead(s: Slot)
    requires s[0] == DELETED
    ensures !Live(s) && !IsDot(s)
  {
  }

  lemma NotThere(g: Geometry, v: View, t: Tree, path: Text, d: nat, i: nat)
    requires LeadsNowhere(g, v, t, path)
    ensures !LeadsTo(g, v, t, path, d, i)
  {
  }

  lemma SlotIsLive(g: Geometry, v: View, t: Tree, d: nat, i: nat, h: nat, size: nat)
    requires SlotIs(g, v, t, d, i, h, size)
    ensures Shape(g, v, t) && LiveIn(AllSlots(g, v, t), d, i)
  {
    hide Shape, AllSlots;
  }

  /** What creating a file comes to: an empty file, found under its path, in an otherwise unchanged tree; or, if the name
      begins with 0xE5, nothing at all. */
  lemma Created(g: Geometry, v: View, t: Tree, path: Text, d: nat, i: nat)
    requires WellFormed(g, v, t) && GoesTo(g, v, t, path, d, i)
    ensures Shape(g, v, t) && d in t.dirs && i < |AllSlots(g, v, t)[d]| && Accepted(NameIn(path))
    ensures var s := NewEntry(path, ATTR_ARCHIVE, 0, 0); var w := WithSlot(g, v, t, d, i, s);
            && OneSlot(g, v, t, w, t, d, i, s)
            && WellFormed(g, w, t)
            && (OrdinaryName(path) ==> SlotIs(g, w, t, d, i, 0, 0) && LeadsTo(g, w, t, path, d, i))
            && (!OrdinaryName(path) ==> !SlotIs(g, w, t, d, i, 0, 0) && LeadsNowhere(g, w, t, path))
  {
    hide AllSlots, Shape, WithSlot, SoundIn, HousedIn, SizedIn, Accounted, Put, ClusterOf, SizeOf, Live, IsDirectory,
         NameIn, Encode, Accepted, FirstFree, Nameable, OneSlot, GoesTo, LeadsTo, LeadsNowhere, SlotIs;
    var m := AllSlots(g, v, t);
    ShapeFacts(g, v, t);
    GoesToFacts(g, v, t, path, d, i);
    FirstFreeIsFree(m[d], i);
    var s := NewEntry(path, ATTR_ARCHIVE, 0, 0);
    NewEntryLive(NameIn(path), ATTR_ARCHIVE, 0, 0);
    OneSlotWritten(g, v, t, d, i, s);
    if OrdinaryName(path) {
      NewFileNameable(g, t, m, d, i, s);
      SizedOthers(g, t, m, d, i);
      Named(g, v, t, m, d, i, s, 0);
      NewFileFound(g, v, t, WithSlot(g, v, t, d, i, s), path, d, i, s);
    } else {
      DeadEntry(g, v, t, path, d, i, s);
      LiveAfterPut(m, d, i, s, d, i);
      if SlotIs(g, WithSlot(g, v, t, d, i, s), t, d, i, 0, 0) {
        SlotIsLive(g, WithSlot(g, v, t, d, i, s), t, d, i, 0, 0);
      }
    }
  }

  lemma SizedOthers(g: Geometry, t: Tree, m: Dirs, d: nat, i: nat)
    requires SizedIn(g, t, m)
    ensures OthersFit(g, t, m, d, i)
  {
  }

  lemma NewFileFound(g: Geometry, v: View, t: Tree, w: View, path: Text, d: nat, i: nat, s: Slot)
    requires Sound(g, v, t) && GoesTo(g, v, t, path, d, i)
    requires Accepted(NameIn(path)) && Live(s) && !IsDirectory(s) && NameOf(s) == Encode(NameIn(path))
    requires OneSlot(g, v, t, w, t, d, i, s)
    ensures LeadsTo(g, w, t, path, d, i) && SlotIs(g, w, t, d, i, ClusterOf(s), SizeOf(s))
  {
    hide AllSlots, SoundIn, Resolve, NewPlace, NameIn, Encode, Accepted, OneSlot, Shape, Live, IsDirectory, ClusterOf, SizeOf;
    ShapeFacts(g, v, t);
    OneSlotFacts(g, v, t, w, t, d, i, s);
    LiveIsUsed(s);
    NewEntryResolves(t, AllSlots(g, v, t), g.rootCluster, path, s, AllSlots(g, w, t));
  }

  /** fat32_create_file: the outcome and the slot are those NewPlace decides; on success the path leads to a new empty
      file and the handle to that file, if and only if the name does not begin with 0xE5; otherwise the path leads nowhere.
      On failure nothing has changed. */
  method CreateFile(fs: Volume, path: Text, file: FileHandle, ghost t: Tree) returns (r: Status)
    requires fs.Ready() && WellFormed(fs.g, fs.Now(), t)
    modifies fs`journal, fs.device, fs.sectorBuffer, file
    ensures fs.Ready()
    ensures NewPlace(old(SlotsNow(fs, t)), fs.g.rootCluster, path)
         == if r == Ok then Place(file.directoryCluster, file.entryIndex) else Refused(r)
    ensures r != Ok ==> fs.Now() == old(fs.Now()) && fs.journal == old(fs.journal) && unchanged(file)
    ensures r == Ok ==> Accepted(NameIn(path))
    ensures r == Ok ==> OneSlot(fs.g, old(fs.Now()), t, fs.Now(), t, file.directoryCluster, file.entryIndex,
                                NewEntry(path, ATTR_ARCHIVE, 0, 0))
    ensures r == Ok ==> fs.journal == old(fs.journal) + [fs.Now()]
    ensures r == Ok ==> WellFormed(fs.g, fs.Now(), t)
    ensures r == Ok ==> (HandleOk(fs.g, fs.Now(), t, file) <==> OrdinaryName(path))
    ensures r == Ok ==> (LeadsTo(fs.g, fs.Now(), t, path, file.directoryCluster, file.entryIndex) <==> OrdinaryName(path))
    ensures r == Ok && !OrdinaryName(path) ==> LeadsNowhere(fs.g, fs.Now(), t, path)
    ensures r == Ok ==> file.firstCluster == 0 && file.size == 0 && file.position == 0 && !file.directory
  {
    hide Kept, ViewOf, AllSlots, Shape, WithSlot, SoundIn, SizedIn, Housed, Accounted, NewPlace, NameIn, Encode, Accepted,
         OneSlot, SlotIs, LeadsTo, LeadsNowhere;
    var dir, entryIndex, shortName;
    r, dir, entryIndex, shortName := PlaceNew(fs, path, t);
    if r != Ok {
      return;
    }
    SafeFacts(fs.g, fs.Now(), t);
    Created(fs.g, fs.Now(), t, path, dir, entryIndex);
    r := WriteEntryData(fs, dir, entryIndex, shortName, ATTR_ARCHIVE, 0, 0, t);
    if r != Ok {
      return;
    }
    file.firstCluster := 0;
    file.size := 0;
    file.position := 0;
    file.directoryCluster := dir;
    file.entryIndex := entryIndex;
    file.directory := false;
    if !OrdinaryName(path) {
      NotThere(fs.g, fs.Now(), t, path, dir, entryIndex);
    }
  }
}
