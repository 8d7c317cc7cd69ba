/** Replacing one directory slot. */
module TreeSteps {
  import opened Bytes
  import opened Geometry
  import opened Volumes
  import opened Chains
  import opened Allocation
  import opened Contents
  import opened FileRead
  import opened Slots
  import opened Trees

  /** m with slot i of directory d replaced by s. */
  function Put(m: Dirs, d: nat, i: nat, s: Slot): (r: Dirs)
    requires d in m && i < |m[d]|
    ensures r.Keys == m.Keys && forall e | e in m :: |r[e]| == |m[e]|
  {
    var ss: seq<Slot> := m[d][i := s];
    m[d := ss]
  }

  /** v with the i-th 32 bytes of a chain replaced by s. */
  ghost function WithRecord(g: Geometry, v: View, ch: seq<nat>, i: nat, s: Slot): View
    requires Placed(g, ch) && Fitted(g, v) && i < 16 * Sectors(g, |ch|)
  {
    var k := ChainSector(g, ch, i / 16);
    v.(data := v.data[k := Splice(v.data[k], 32 * (i % 16), s)])
  }

  ghost function ClustersOf(ch: seq<nat>): set<nat> {
    set c | c in ch
  }

  /** The 32 bytes where the division of a record's index leads are that record of the chain's bytes. */
  lemma RecordInSector(g: Geometry, v: View, ch: seq<nat>, i: nat)
    requires Placed(g, ch) && Fitted(g, v) && i < 16 * Sectors(g, |ch|)
    ensures i / 16 < Sectors(g, |ch|)
    ensures v.data[ChainSector(g, ch, i / 16)][32 * (i % 16)..32 * (i % 16) + 32] == SlotsOf(ChainBytes(g, v, ch))[i]
  {
    hide ChainBytes, ChainSector;
    ChainBytesSector(g, v, ch, i / 16);
    SliceOfSlice(ChainBytes(g, v, ch), 512 * (i / 16), 512, 32 * (i % 16), 32);
    assert 512 * (i / 16) + 32 * (i % 16) == 32 * i;
  }

  lemma WithRecordEffect(g: Geometry, v: View, ch: seq<nat>, i: nat, s: Slot)
    requires Placed(g, ch) && Distinct(ch) && Fitted(g, v) && i < 16 * Sectors(g, |ch|)
    ensures ChainBytes(g, WithRecord(g, v, ch, i, s), ch) == Splice(ChainBytes(g, v, ch), 32 * i, s)
    ensures Confined(g, v, WithRecord(g, v, ch, i, s), {}, ClustersOf(ch))
  {
    hide ChainBytes, Distinct, Confined;
    var k := i / 16;
    var data := Splice(v.data[ChainSector(g, ch, k)], 32 * (i % 16), s);
    WriteChainSector(g, v, ch, k, data);
    ChainBytesSector(g, v, ch, k);
    SpliceWindow(ChainBytes(g, v, ch), 512 * k, 512, 32 * (i % 16), s);
    assert 512 * k + 32 * (i % 16) == 32 * i;
    ChainSectorConfined(g, v, ch, k, data);
  }

  lemma ChainSectorConfined(g: Geometry, v: View, ch: seq<nat>, k: nat, data: Sector)
    requires Placed(g, ch) && Fitted(g, v) && k < Sectors(g, |ch|)
    ensures Confined(g, v, v.(data := v.data[ChainSector(g, ch, k) := data]), {}, ClustersOf(ch))
  {
    ChainSectorOf(g, ch, k);
    SectorWriteConfined(g, v, ch[Quot(k, g.sectorsPerCluster)], Rem(k, g.sectorsPerCluster), data);
  }

  /** v with slot i of directory d replaced by s. */
  ghost function WithSlot(g: Geometry, v: View, t: Tree, d: nat, i: nat, s: Slot): View
    requires Shape(g, v, t) && d in t.dirs && i < |AllSlots(g, v, t)[d]|
  {
    ChainPlaced(g, v, t.chains[d]);
    WithRecord(g, v, t.chains[d], i, s)
  }

  /** Replacing slot i of a directory splices it into that directory's bytes, in one sector of its chain. */
  lemma WithSlotBytes(g: Geometry, v: View, t: Tree, d: nat, i: nat, s: Slot)
    requires Shape(g, v, t) && d in t.dirs && i < |AllSlots(g, v, t)[d]|
    ensures var w := WithSlot(g, v, t, d, i, s);
            && w.fat == v.fat && Confined(g, v, w, {}, ClustersOf(t.chains[d]))
            && Shape(g, w, t)
            && BytesAt(g, w, t, d) == Splice(BytesAt(g, v, t, d), 32 * i, s)
  {
    hide ChainBytes, ChainSector, SlotsOf, Confined, Splice;
    ChainPlaced(g, v, t.chains[d]);
    WithRecordEffect(g, v, t.chains[d], i, s);
    ShapeFrame(g, v, WithSlot(g, v, t, d, i, s), t, {}, ClustersOf(t.chains[d]));
  }

  /** Replacing one slot changes that directory at that slot, and no other chain's bytes. */
  lemma WithSlotEffect(g: Geometry, v: View, t: Tree, d: nat, i: nat, s: Slot)
    requires Shape(g, v, t) && d in t.dirs && i < |AllSlots(g, v, t)[d]|
    ensures var w := WithSlot(g, v, t, d, i, s);
            && w.fat == v.fat && Confined(g, v, w, {}, ClustersOf(t.chains[d]))
            && Shape(g, w, t)
            && AllSlots(g, w, t) == Put(AllSlots(g, v, t), d, i, s)
            && forall h | h in t.chains && h != d :: BytesAt(g, w, t, h) == BytesAt(g, v, t, h)
  {
    hide WithSlot, Confined, BytesAt, IsChain;
    var w := WithSlot(g, v, t, d, i, s);
    WithSlotBytes(g, v, t, d, i, s);
    SlotsOfSplice(BytesAt(g, v, t, d), i, s);
    forall h | h in t.chains && h != d ensures BytesAt(g, w, t, h) == BytesAt(g, v, t, h) {
      BytesFrame(g, v, t, w, t, {}, ClustersOf(t.chains[d]), h);
    }
  }

  lemma SameWithSlot(g: Geometry, v: View, t: Tree, t': Tree, d: nat, i: nat, s: Slot)
    requires Shape(g, v, t) && Shape(g, v, t') && d in t.dirs && d in t'.dirs && t'.chains[d] == t.chains[d]
    requires i < |AllSlots(g, v, t)[d]|
    ensures i < |AllSlots(g, v, t')[d]| && WithSlot(g, v, t', d, i, s) == WithSlot(g, v, t, d, i, s)
  {
    hide IsChain, WithRecord;
  }

  /** The replaced slot was in use, or was the first free one. */
  ghost predicate Placeable(ss: seq<Slot>, i: nat, s: Slot) {
    i < |ss| && s[0] != 0 && (FirstFree(ss, i) || ss[i][0] != 0) && !IsDot(s) && !IsDot(ss[i])
  }

  lemma PutKeeps(m: Dirs, d: nat, i: nat, s: Slot)
    requires d in m && Placeable(m[d], i, s)
    requires forall e | e in m :: TailUnused(m[e]) && DotsFirst(m[e])
    ensures forall e | e in Put(m, d, i, s) :: TailUnused(Put(m, d, i, s)[e]) && DotsFirst(Put(m, d, i, s)[e])
  {
    TailUnusedAfterUse(m[d], i, s);
    DotsFirstAfterUse(m[d], i, s);
  }

  /** Which slots are live after the replacement. */
  lemma LiveAfterPut(m: Dirs, d: nat, i: nat, s: Slot, e: nat, j: nat)
    requires d in m && i < |m[d]|
    ensures LiveIn(Put(m, d, i, s), e, j) <==> if (e, j) == (d, i) then Live(s) else LiveIn(m, e, j)
    ensures LiveIn(Put(m, d, i, s), e, j) && (e, j) != (d, i) ==> Put(m, d, i, s)[e][j] == m[e][j]
    ensures Put(m, d, i, s)[d][i] == s
  {
  }
}
