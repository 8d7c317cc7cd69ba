/** Directory slots and short names in plain numbers: what each byte of a slot says, and what the operations write there. */
module SlotLayout {
  import opened Bytes
  import opened Slots
  import opened Names83
  import opened LongNames
  import opened EmptyDirs

  // ---------------------------------------------------------------- reading a slot

  /** A letter in upper case. */
  lemma UpperMeans(c: byte)
    ensures 97 <= c <= 122 ==> Upper(c) == c - 32
    ensures !(97 <= c <= 122) ==> Upper(c) == c
  {
  }

  /** What a slot is, by its first bytes and its attribute byte: never used (0x00) or deleted (0xE5), part of a long name (0x0F),
      a label (bit 3), "." or "..", or live; and if live a directory (bit 4) or a file. */
  lemma SlotMeans(s: Slot)
    ensures IsFree(s) <==> s[0] == 0x00 || s[0] == 0xE5
    ensures IsLong(s) <==> s[11] == 0x0F
    ensures IsLabel(s) <==> s[11] % 16 >= 8
    ensures IsDirectory(s) <==> s[11] % 32 >= 16
    ensures IsDot(s) <==> s[0] == 46 && (s[1] == 32 || (s[1] == 46 && s[2] == 32))
    ensures Used(s) <==> s[0] !in {0x00, 0xE5} && s[11] != 0x0F && s[11] % 16 < 8
    ensures Live(s) <==> Used(s) && !(s[0] == 46 && (s[1] == 32 || (s[1] == 46 && s[2] == 32)))
    ensures |NameOf(s)| == 11 && forall k | 0 <= k < 11 :: NameOf(s)[k] == s[k]
  {
  }

  /** The cluster in two halves, at 26 and 20, and the size at 28, least significant byte first. */
  lemma ExtentMeans(s: Slot)
    ensures ClusterOf(s) == s[26] as int + 256 * s[27] as int + 65536 * s[20] as int + 16777216 * s[21] as int
    ensures SizeOf(s) == s[28] as int + 256 * s[29] as int + 65536 * s[30] as int + 16777216 * s[31] as int
  {
  }

  /** A directory looks empty if, up to the first never-used slot, every slot is deleted, part of a long name, or begins with
      a dot and a space or another dot. */
  lemma LooksEmptyMeans(ss: seq<Slot>)
    ensures LooksEmpty(ss) <==>
            forall i | 0 <= i < |ss| && (forall j | 0 <= j <= i :: ss[j][0] != 0x00) ::
              ss[i][0] == 0xE5 || ss[i][11] == 0x0F || (ss[i][0] == 46 && (ss[i][1] == 32 || ss[i][1] == 46))
  {
    if LooksEmpty(ss) {
      forall i | 0 <= i < |ss| && (forall j | 0 <= j <= i :: ss[j][0] != 0x00)
        ensures ss[i][0] == 0xE5 || ss[i][11] == 0x0F || (ss[i][0] == 46 && (ss[i][1] == 32 || ss[i][1] == 46))
      {
        FrontMeans(ss, i);
        assert Ignored(ss[i]);
      }
    } else {
      var i :| 0 <= i < |Front(ss)| && !Ignored(ss[i]);
      FrontMeans(ss, i);
    }
  }

  lemma FrontMeans(ss: seq<Slot>, i: nat)
    requires i < |ss|
    ensures i < |Front(ss)| <==> forall j | 0 <= j <= i :: ss[j][0] != 0x00
  {
    var e := EndFrom(ss, 0);
    if e <= i {
      assert ss[e][0] == 0x00;
    }
  }

  // ---------------------------------------------------------------- writing a slot

  /** A new entry, byte by byte: name, attributes, eight zeros, the upper half of the cluster, four zeros, the lower half, the
      size. */
  lemma EntryMeans(name: Name83, attributes: byte, cluster: nat, size: nat)
    requires cluster < U32 && size < U32
    ensures var s := EntrySlot(name, attributes, cluster, size);
            && s[..11] == name && s[11] == attributes
            && (forall k | 12 <= k < 20 :: s[k] == 0) && (forall k | 22 <= k < 26 :: s[k] == 0)
            && s[26] as int + 256 * s[27] as int + 65536 * s[20] as int + 16777216 * s[21] as int == cluster
            && s[28] as int + 256 * s[29] as int + 65536 * s[30] as int + 16777216 * s[31] as int == size
  {
    hide NameOf, ClusterOf, SizeOf;
    EntrySlotFields(name, attributes, cluster, size);
    NameIs(EntrySlot(name, attributes, cluster, size));
    ExtentMeans(EntrySlot(name, attributes, cluster, size));
  }

  lemma NameIs(s: Slot)
    ensures NameOf(s) == s[..11]
  {
  }

  /** Rewriting cluster and size, or the size alone, or deleting, changes those bytes only. */
  lemma RewriteMeans(s: Slot, cluster: nat, size: nat)
    requires cluster < U32 && size < U32
    ensures forall k | 0 <= k < 32 && k !in {20, 21, 26, 27, 28, 29, 30, 31} :: ExtentSlot(s, cluster, size)[k] == s[k]
    ensures forall k | 0 <= k < 28 :: SizedSlot(s, size)[k] == s[k]
    ensures var r := SizedSlot(s, size);
            r[28] as int + 256 * r[29] as int + 65536 * r[30] as int + 16777216 * r[31] as int == size
    ensures var r := ExtentSlot(s, cluster, size);
            && r[26] as int + 256 * r[27] as int + 65536 * r[20] as int + 16777216 * r[21] as int == cluster
            && r[28] as int + 256 * r[29] as int + 65536 * r[30] as int + 16777216 * r[31] as int == size
    ensures DeletedSlot(s) == s[0 := 0xE5]
  {
    hide ClusterOf, SizeOf;
    ExtentSlotFields(s, cluster, size);
    ExtentMeans(ExtentSlot(s, cluster, size));
    SizedSlotFields(s, size);
    ExtentMeans(SizedSlot(s, size));
    assert forall k | 0 <= k < 28 :: SizedSlot(s, size)[k] == s[k];
  }

  // ---------------------------------------------------------------- short names

  /** k is where the first dot of s is, or its length if there is none. */
  predicate FirstDot(s: seq<byte>, k: nat) {
    k <= |s| && (k < |s| ==> s[k] == 46) && forall j | 0 <= j < k :: s[j] != 46
  }

  /** Which names can be stored: up to eight characters before the first dot and up to three behind it. */
  lemma AcceptedMeans(s: seq<byte>, k: nat)
    requires FirstDot(s, k)
    ensures Accepted(s) <==> k <= 8 && |s| <= k + 4
  {
    IndexOfUnique(s, DOT, k);
  }

  /** And as what: in upper case, each part filled up with spaces. */
  lemma EncodeMeans(s: seq<byte>, k: nat, j: nat)
    requires Accepted(s) && FirstDot(s, k) && j < 11
    ensures j < 8 ==> Encode(s)[j] == if j < k then Upper(s[j]) else 32
    ensures j >= 8 ==> Encode(s)[j] == if k + 1 + (j - 8) < |s| then Upper(s[k + 1 + (j - 8)]) else 32
  {
    hide Upper, Uppercase, IndexOf, Encode;
    IndexOfUnique(s, DOT, k);
    EncodeParts(s);
    assert Base(s) == s[..k] && Extension(s) == if k == |s| then [] else s[k + 1..];
    if j < 8 {
      PaddedAt(Base(s), 8, j);
      assert Encode(s)[j] == Encode(s)[..8][j];
    } else {
      PaddedAt(Extension(s), 3, j - 8);
      assert Encode(s)[j] == Encode(s)[8..][j - 8];
    }
  }

  lemma EncodeParts(s: seq<byte>)
    requires Accepted(s)
    ensures Encode(s)[..8] == Uppercase(Base(s)) + Spaces(8 - |Base(s)|)
    ensures Encode(s)[8..] == Uppercase(Extension(s)) + Spaces(3 - |Extension(s)|)
  {
    hide Base, Extension;
  }

  lemma PaddedAt(part: seq<byte>, n: nat, j: nat)
    requires |part| <= n && j < n
    ensures (Uppercase(part) + Spaces(n - |part|))[j] == if j < |part| then Upper(part[j]) else 32
  {
  }

  /** What is shown of a stored name: what comes before the first space of each part, with a dot between them unless the second
      part is all spaces. */
  lemma DisplayMeans(name: Name83, b: nat, e: nat)
    requires b <= 8 && (forall j | 0 <= j < b :: name[j] != 32) && (b < 8 ==> name[b] == 32)
    requires e <= 3 && (forall j | 8 <= j < 8 + e :: name[j] != 32) && (e < 3 ==> name[8 + e] == 32)
    ensures name[8] == name[9] == name[10] == 32 ==> Display(name) == name[..b]
    ensures !(name[8] == name[9] == name[10] == 32) ==> Display(name) == name[..b] + [46] + name[8..8 + e]
  {
    IndexOfUnique(name[..8], SPACE, b);
    IndexOfUnique(name[8..], SPACE, e);
    assert name[..8][..b] == name[..b] && name[8..][..e] == name[8..8 + e];
    assert name[8] == name[8..][0] && name[9] == name[8..][1] && name[10] == name[8..][2];
    if name[8] == name[9] == name[10] == 32 {
      assert name[8..] == Spaces(3);
      assert name[..b] + [] == name[..b];
    }
  }

  // ---------------------------------------------------------------- looking a name up

  /** Two texts match if they are of one length and differ in the case of letters at most. */
  lemma FoldMeans(a: seq<byte>, b: seq<byte>)
    ensures EqualFold(a, b) <==>
            |a| == |b| && forall i | 0 <= i < |a| ::
              a[i] == b[i] || (65 <= a[i] <= 90 && b[i] == a[i] + 32) || (65 <= b[i] <= 90 && a[i] == b[i] + 32)
  {
  }

  /** Case is the same thing for long names and for short ones. */
  lemma FoldIsUppercase(a: seq<byte>, b: seq<byte>)
    ensures EqualFold(a, b) <==> Uppercase(a) == Uppercase(b)
  {
    if Uppercase(a) == Uppercase(b) {
      assert |a| == |b|;
      forall i | 0 <= i < |a| ensures Lower(a[i]) == Lower(b[i]) {
        assert Uppercase(a)[i] == Uppercase(b)[i];
      }
    }
  }

  /** The slot a lookup finds is the first one in use that the name matches, by its long name if it has one or by its short
      name, before the first never-used slot. */
  lemma FindMeans(ss: seq<Slot>, name: seq<byte>, i: nat)
    ensures Find(ss, name, 0) == Some(i) <==>
            && i < |ss| && Hit(ss, i, name) && (forall j | 0 <= j <= i :: ss[j][0] != 0x00)
            && forall j | 0 <= j < i :: !Hit(ss, j, name)
    ensures i < |ss| ==>
              (Hit(ss, i, name) <==>
                && ss[i][0] !in {0x00, 0xE5} && ss[i][11] != 0x0F && ss[i][11] % 16 < 8
                && ((Held(ss, i).Some? && EqualFold(name, Reported(ss, i))) || (Accepted(name) && Encode(name) == ss[i][..11])))
  {
    hide Held, EqualFold, Accepted, Encode;
    FindMeansFrom(ss, name, 0, i);
    if i < |ss| {
      SlotMeans(ss[i]);
    }
  }

  predicate Hit(ss: seq<Slot>, i: nat, name: seq<byte>)
    requires i < |ss|
  {
    Used(ss[i]) && Matches(ss, i, name)
  }

  lemma {:induction false} FindMeansFrom(ss: seq<Slot>, name: seq<byte>, k: nat, i: nat)
    requires k <= |ss|
    ensures Find(ss, name, k) == Some(i) <==>
            && k <= i < |ss| && Hit(ss, i, name) && (forall j | k <= j <= i :: ss[j][0] != 0x00)
            && forall j | k <= j < i :: !Hit(ss, j, name)
    decreases |ss| - k
  {
    hide Matches, Used;
    if k < |ss| && ss[k][0] != 0 && !Hit(ss, k, name) {
      FindMeansFrom(ss, name, k + 1, i);
    }
  }
}
