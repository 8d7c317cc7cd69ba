/** Directory slots: the 32-byte records a directory's byte string is made of. */
module Slots {
  import opened Bytes

  const ATTR_VOLUME_ID: nat := 0x08
  const ATTR_DIRECTORY: nat := 0x10
  const ATTR_ARCHIVE: nat := 0x20
  const ATTR_LFN: nat := 0x0F
  const DELETED: nat := 0xE5

  type Slot = s: seq<byte> | |s| == 32 witness Zeros(32)
  type Name83 = s: seq<byte> | |s| == 11 witness Zeros(11)

  function SlotAt(b: seq<byte>, i: nat): Slot
    requires 32 * i + 32 <= |b|
  {
    b[32 * i..32 * i + 32]
  }

  /** A directory's bytes as slots. */
  function SlotsOf(b: seq<byte>): (ss: seq<Slot>)
    ensures |ss| == |b| / 32
  {
    seq(|b| / 32, i requires 0 <= i < |b| / 32 => SlotAt(b, i))
  }

  lemma SlotsOfSplice(b: seq<byte>, i: nat, s: Slot)
    requires i < |b| / 32
    ensures SlotsOf(Splice(b, 32 * i, s)) == SlotsOf(b)[i := s]
  {
    forall j | 0 <= j < |b| / 32 ensures SlotAt(Splice(b, 32 * i, s), j) == SlotsOf(b)[i := s][j] {
    }
  }

  // ---------------------------------------------------------------- fields

  predicate HasBit(attributes: byte, bit: nat)
    requires bit > 0
  {
    var a: int := attributes;
    a / bit % 2 == 1
  }

  function NameOf(s: Slot): Name83 {
    s[..11]
  }

  function ClusterOf(s: Slot): nat {
    0x1_0000 * Le16(s, 20) + Le16(s, 26)
  }

  function SizeOf(s: Slot): nat {
    Le32(s, 28)
  }

  predicate IsDirectory(s: Slot) {
    HasBit(s[11], ATTR_DIRECTORY)
  }

  predicate IsLabel(s: Slot) {
    HasBit(s[11], ATTR_VOLUME_ID)
  }

  predicate IsLong(s: Slot) {
    s[11] == ATTR_LFN
  }

  predicate IsFree(s: Slot) {
    s[0] == 0 || s[0] == DELETED
  }

  /** The test fat32_readdir uses for "." and "..". */
  predicate IsDot(s: Slot) {
    s[0] == DOT && (s[1] == SPACE || (s[1] == DOT && s[2] == SPACE))
  }

  /** A slot that names a file or a directory of the tree. */
  predicate Live(s: Slot) {
    !IsFree(s) && !IsLong(s) && !IsLabel(s) && !IsDot(s)
  }

  // ---------------------------------------------------------------- what the operations write

  function DeletedSlot(s: Slot): (r: Slot)
    ensures r[0] == DELETED
  {
    s[0 := DELETED]
  }

  function EntrySlot(name: Name83, attributes: byte, cluster: nat, size: nat): Slot
    requires cluster < U32 && size < U32
  {
    name + [attributes] + Zeros(8) + Enc16(cluster / 0x1_0000) + Zeros(4) + Enc16(cluster % 0x1_0000) + Enc32(size)
  }

  function ExtentSlot(s: Slot, cluster: nat, size: nat): Slot
    requires cluster < U32 && size < U32
  {
    Splice(Splice(Splice(s, 20, Enc16(cluster / 0x1_0000)), 26, Enc16(cluster % 0x1_0000)), 28, Enc32(size))
  }

  function SizedSlot(s: Slot, size: nat): Slot
    requires size < U32
  {
    Splice(s, 28, Enc32(size))
  }

  lemma EntrySlotFields(name: Name83, attributes: byte, cluster: nat, size: nat)
    requires cluster < U32 && size < U32
    ensures var s := EntrySlot(name, attributes, cluster, size);
            NameOf(s) == name && s[11] == attributes && ClusterOf(s) == cluster && SizeOf(s) == size
  {
    var s := EntrySlot(name, attributes, cluster, size);
    var hi, lo, z := Enc16(cluster / 0x1_0000), Enc16(cluster % 0x1_0000), Enc32(size);
    assert s[20] == hi[0] && s[21] == hi[1] && s[26] == lo[0] && s[27] == lo[1];
    assert s[28] == z[0] && s[29] == z[1] && s[30] == z[2] && s[31] == z[3];
    Enc32Digits(size);
    assert s[..11] == name;
  }

  lemma ExtentSlotFields(s: Slot, cluster: nat, size: nat)
    requires cluster < U32 && size < U32
    ensures var r := ExtentSlot(s, cluster, size);
            && ClusterOf(r) == cluster && SizeOf(r) == size
            && r[..20] == s[..20] && r[22..26] == s[22..26]
            && (Live(r) <==> Live(s)) && (IsDirectory(r) <==> IsDirectory(s)) && NameOf(r) == NameOf(s)
  {
    var a := Splice(s, 20, Enc16(cluster / 0x1_0000));
    var b := Splice(a, 26, Enc16(cluster % 0x1_0000));
    var r := Splice(b, 28, Enc32(size));
    PutGet16(s, 20, cluster / 0x1_0000);
    PutGet16(a, 26, cluster % 0x1_0000);
    PutGet32(b, 28, size);
    assert r[20] == a[20] && r[21] == a[21] && r[26] == b[26] && r[27] == b[27];
    assert forall i | 0 <= i < 20 :: r[i] == s[i];
    assert r[..20] == s[..20];
    assert r[..11] == r[..20][..11] && s[..11] == s[..20][..11];
    assert r[22..26] == s[22..26];
  }

  lemma SizedSlotFields(s: Slot, size: nat)
    requires size < U32
    ensures var r := SizedSlot(s, size);
            && SizeOf(r) == size && ClusterOf(r) == ClusterOf(s) && r[..28] == s[..28]
            && (Live(r) <==> Live(s)) && (IsDirectory(r) <==> IsDirectory(s)) && NameOf(r) == NameOf(s)
  {
    PutGet32(s, 28, size);
    var r := SizedSlot(s, size);
    assert forall i | 0 <= i < 28 :: r[i] == s[i];
    assert r[..28] == s[..28];
    assert r[..11] == r[..28][..11] && s[..11] == s[..28][..11];
  }

  // ---------------------------------------------------------------- whole directories

  /** After the first never-used slot nothing is in use. */
  ghost predicate TailUnused(ss: seq<Slot>) {
    forall i, j | 0 <= i < j < |ss| && ss[i][0] == 0 :: ss[j][0] == 0
  }

  /** "." and ".." stand first, if anywhere. */
  ghost predicate DotsFirst(ss: seq<Slot>) {
    forall i | 0 <= i < |ss| && IsDot(ss[i]) :: i < 2 && IsDot(ss[0])
  }

  /** i is the first slot fat32_find_free_directory_entry would take. */
  ghost predicate FirstFree(ss: seq<Slot>, i: nat) {
    i < |ss| && IsFree(ss[i]) && forall j | 0 <= j < i :: !IsFree(ss[j])
  }

  lemma TailUnusedAfterUse(ss: seq<Slot>, i: nat, s: Slot)
    requires TailUnused(ss) && i < |ss| && s[0] != 0
    requires FirstFree(ss, i) || ss[i][0] != 0
    ensures TailUnused(ss[i := s])
  {
  }

  lemma DotsFirstAfterUse(ss: seq<Slot>, i: nat, s: Slot)
    requires DotsFirst(ss) && i < |ss| && !IsDot(s) && !IsDot(ss[i])
    ensures DotsFirst(ss[i := s])
  {
  }
}
