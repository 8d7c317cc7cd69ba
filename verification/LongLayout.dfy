/** Long names as section "FAT Long Directory Entries" of the FAT specification lays them out on disk, and what the reader
    makes of them: encoding and reading back. */
module LongLayout {
  import opened Bytes
  import opened Slots
  import opened Names83
  import opened LongNames

  /** A character: one 16-bit unit, neither the terminator nor the padding. */
  type Unit = u: nat | 0 < u < 0xFFFF witness 65

  /** What stands at position k of the area for the name: the name, its terminator, padding. */
  function UnitAt(name: seq<Unit>, k: nat): (u: nat)
    ensures u <= 0xFFFF
  {
    if k < |name| then name[k] else if k == |name| then 0x0000 else 0xFFFF
  }

  function Low(name: seq<Unit>, k: nat): byte {
    UnitAt(name, k) % 0x100
  }

  function High(name: seq<Unit>, k: nat): byte {
    UnitAt(name, k) / 0x100
  }

  function Two(name: seq<Unit>, p: nat): (s: seq<byte>)
    ensures |s| == 4
  {
    [Low(name, p), High(name, p), Low(name, p + 1), High(name, p + 1)]
  }

  function Five(name: seq<Unit>, p: nat): (s: seq<byte>)
    ensures |s| == 10
  {
    Two(name, p) + Two(name, p + 2) + [Low(name, p + 4), High(name, p + 4)]
  }

  function Six(name: seq<Unit>, p: nat): (s: seq<byte>)
    ensures |s| == 12
  {
    Two(name, p) + Two(name, p + 2) + Two(name, p + 4)
  }

  /** Fragment number n of a name: thirteen characters, five, six and two of them together, around the attribute byte 0x0F, the
      type, the checksum and the unused cluster field. The last fragment's number has the bit 0x40 set. */
  function Fragment(name: seq<Unit>, n: nat, last: bool, checksum: byte): (s: Slot)
    requires 0 < n <= 20
  {
    var p := 13 * n - 13;
    var number: byte := if last then n + 0x40 else n;
    [number] + Five(name, p) + [0x0F, 0, checksum] + Six(name, p + 5) + [0, 0] + Two(name, p + 11)
  }

  /** How many fragments a name takes. */
  function Fragments(name: seq<Unit>): nat {
    (|name| + 12) / 13
  }

  /** The n-th slot before i. */
  function Before(ss: seq<Slot>, i: nat, n: nat): Slot
    requires 0 < n <= i <= |ss|
  {
    ss[i - n]
  }

  /** The slots before i hold the name's fragments, the last one first. */
  ghost predicate LaidOut(ss: seq<Slot>, i: nat, name: seq<Unit>, checksum: byte) {
    && 0 < |name| <= 255 && Fragments(name) <= i <= |ss|
    && forall n | 0 < n <= Fragments(name) :: Before(ss, i, n) == Fragment(name, n, n == Fragments(name), checksum)
  }

  /** The name as bytes: ASCII as it is, anything else as a question mark. */
  function Shown(name: seq<Unit>): (t: seq<byte>)
    ensures |t| == |name|
  {
    seq(|name|, k requires 0 <= k < |name| => if name[k] < 0x80 then name[k] else 63)
  }

  // ---------------------------------------------------------------- one fragment

  lemma Halves(u: nat)
    requires u <= 0xFFFF
    ensures u % 0x100 + 0x100 * (u / 0x100) == u && u / 0x100 < 0x100
  {
  }

  lemma BytesOfFragment(name: seq<Unit>, n: nat, last: bool, checksum: byte, j: nat)
    requires 0 < n <= 20 && j < 13
    ensures var s := Fragment(name, n, last, checksum);
            s[CharOffset(j)] == Low(name, 13 * n - 13 + j) && s[CharOffset(j) + 1] == High(name, 13 * n - 13 + j)
  {
    hide Low, High;
  }

  /** Where the reader looks for a character is where it is. */
  lemma CharOfFragment(name: seq<Unit>, n: nat, last: bool, checksum: byte, j: nat)
    requires 0 < n <= 20 && j < 13
    ensures CharAt(Fragment(name, n, last, checksum), j) == UnitAt(name, 13 * n - 13 + j)
  {
    hide Fragment, UnitAt, CharOffset;
    Halves(UnitAt(name, 13 * n - 13 + j));
    BytesOfFragment(name, n, last, checksum, j);
  }

  /** How the reader classifies a fragment. */
  lemma FragmentFacts(name: seq<Unit>, n: nat, last: bool, checksum: byte)
    requires 0 < n <= 20
    ensures var s := Fragment(name, n, last, checksum);
            && s[0] != DELETED && IsLong(s) && Sequence(s) == n && (HasBit(s[0], LFN_LAST) <==> last)
  {
  }

  lemma {:induction false} LaidAt(buffer: seq<byte>, last: int, s: Slot, base: nat, n: nat, k: nat)
    requires n <= 13 && k < |buffer| && last <= |buffer|
    ensures Laid(buffer, last, s, base, n)[k] ==
            if base <= k < base + n && k < last && !Blank(CharAt(s, k - base)) then Ascii(CharAt(s, k - base)) else buffer[k]
  {
    hide CharAt, Blank, Ascii;
    if n > 0 {
      LaidAt(buffer, last, s, base, n - 1, k);
    }
  }

  // ---------------------------------------------------------------- a whole name

  /** The buffer once the fragments from number n on have been read. */
  ghost predicate ReadFrom(b: seq<byte>, name: seq<Unit>, n: nat) {
    |b| == 256 && forall k | 0 <= k < 256 :: b[k] == if 13 * n - 13 <= k < |name| then Shown(name)[k] else 0
  }

  lemma FragmentRead(b: NameBuffer, name: seq<Unit>, n: nat, last: bool, checksum: byte)
    requires 0 < n <= 20 && |name| <= 255 && ReadFrom(b, name, n + 1)
    ensures ReadFrom(WithFragment(b, Fragment(name, n, last, checksum)), name, n)
  {
    hide CharAt, Laid, Fragment, Sequence;
    var s := Fragment(name, n, last, checksum);
    FragmentFacts(name, n, last, checksum);
    forall k: nat | k < 256
      ensures WithFragment(b, s)[k] == if 13 * n - 13 <= k < |name| then Shown(name)[k] else 0
    {
      LaidAt(b, 255, s, 13 * (n - 1), 13, k);
      if 13 * n - 13 <= k < 13 * n {
        CharOfFragment(name, n, last, checksum, k - (13 * n - 13));
      }
    }
  }

  /** The machine has the name's end together once it has read the fragments from number n on. */
  lemma {:induction false} HeldFrom(ss: seq<Slot>, i: nat, name: seq<Unit>, checksum: byte, n: nat)
    requires LaidOut(ss, i, name, checksum) && 0 < n <= Fragments(name)
    ensures Held(ss, i + 1 - n).Some? && ReadFrom(Held(ss, i + 1 - n).value, name, n)
    decreases Fragments(name) - n
  {
    hide Fragment, WithFragment, IsLong, HasBit;
    var last := n == Fragments(name);
    var s := Fragment(name, n, last, checksum);
    assert Before(ss, i, n) == s;
    FragmentFacts(name, n, last, checksum);
    if last {
      assert ReadFrom(Zeros(256), name, n + 1);
      FragmentRead(Zeros(256), name, n, last, checksum);
    } else {
      HeldFrom(ss, i, name, checksum, n + 1);
      FragmentRead(Held(ss, i - n).value, name, n, last, checksum);
    }
  }

  lemma WholeRead(b: seq<byte>, name: seq<Unit>)
    requires ReadFrom(b, name, 1) && |name| <= 255
    ensures CString(b) == Shown(name)
  {
    IndexOfUnique(b, 0, |name|);
    assert b[..|name|] == Shown(name);
  }

  /** A name of up to 255 characters, laid out before a slot, is what fat32_readdir reports for that slot: in full if it is
      ASCII, with question marks for other characters. */
  lemma LongNameReported(ss: seq<Slot>, i: nat, name: seq<Unit>, checksum: byte)
    requires LaidOut(ss, i, name, checksum) && i < |ss|
    ensures Held(ss, i).Some? && Reported(ss, i) == Shown(name)
  {
    hide Held, Fragment;
    HeldFrom(ss, i, name, checksum, 1);
    WholeRead(Held(ss, i).value, name);
  }

  /** And a lookup of it, in any case, leads to that slot, or to an earlier match. */
  lemma LongNameFound(ss: seq<Slot>, i: nat, name: seq<Unit>, checksum: byte, asked: seq<byte>)
    requires LaidOut(ss, i, name, checksum) && i < |ss| && Used(ss[i]) && EqualFold(asked, Shown(name))
    requires forall j | 0 <= j <= i :: ss[j][0] != 0
    ensures Find(ss, asked, 0).Some? && Find(ss, asked, 0).value <= i
  {
    hide Held, Fragment, EqualFold, Find;
    LongNameReported(ss, i, name, checksum);
    assert Matches(ss, i, asked);
    FindFirst(ss, asked, 0, i);
  }

  // ---------------------------------------------------------------- fragments of any kind

  /** Where the thirteen characters of a fragment are. */
  lemma CharsMean(s: Slot)
    ensures CharAt(s, 0) == s[1] as int + 256 * s[2] as int && CharAt(s, 1) == s[3] as int + 256 * s[4] as int
    ensures CharAt(s, 2) == s[5] as int + 256 * s[6] as int && CharAt(s, 3) == s[7] as int + 256 * s[8] as int
    ensures CharAt(s, 4) == s[9] as int + 256 * s[10] as int && CharAt(s, 5) == s[14] as int + 256 * s[15] as int
    ensures CharAt(s, 6) == s[16] as int + 256 * s[17] as int && CharAt(s, 7) == s[18] as int + 256 * s[19] as int
    ensures CharAt(s, 8) == s[20] as int + 256 * s[21] as int && CharAt(s, 9) == s[22] as int + 256 * s[23] as int
    ensures CharAt(s, 10) == s[24] as int + 256 * s[25] as int && CharAt(s, 11) == s[28] as int + 256 * s[29] as int
    ensures CharAt(s, 12) == s[30] as int + 256 * s[31] as int
  {
  }

  /** What a fragment puts into a buffer: its characters where its number n, the low five bits of the first byte, says, but
      neither zeros nor padding, and nothing at `last` or behind. Fragment 0 puts nothing there. */
  lemma FragmentMeans(b: seq<byte>, last: nat, s: Slot, n: nat, k: nat)
    requires k < |b| && last <= |b| && n == s[0] as int % 32
    ensures n > 0 && 13 * n - 13 <= k < 13 * n && k < last ==>
              var c := CharAt(s, k - (13 * n - 13));
              FragmentTo(b, last, s)[k] == if c == 0 || c == 0xFFFF then b[k] else if c < 0x80 then c else 63
    ensures !(n > 0 && 13 * n - 13 <= k < 13 * n && k < last) ==> FragmentTo(b, last, s)[k] == b[k]
  {
    hide CharAt, Laid;
    if Sequence(s) > 0 {
      LaidAt(b, last, s, 13 * (Sequence(s) - 1), 13, k);
    }
  }

  /** What one slot does to the long name put together so far: none is left if it is deleted or no fragment; a fragment with the
      bit 0x40 begins a new name, and any other is added to the one begun, if there is one. */
  lemma AfterSlotMeans(held: Option<NameBuffer>, s: Slot)
    ensures s[0] == 0xE5 || s[11] != 0x0F ==> AfterSlot(held, s) == None
    ensures s[0] != 0xE5 && s[11] == 0x0F && s[0] as int % 128 >= 64 ==> AfterSlot(held, s) == Some(FragmentTo(Zeros(256), 255, s))
    ensures s[0] != 0xE5 && s[11] == 0x0F && s[0] as int % 128 < 64 ==>
              AfterSlot(held, s) == if held == None then None else Some(FragmentTo(held.value, 255, s))
  {
    hide FragmentTo;
  }

  /** Slot by slot from the start of the directory. */
  lemma HeldMeans(ss: seq<Slot>, i: nat)
    requires i < |ss|
    ensures Held(ss, 0) == None && Held(ss, i + 1) == AfterSlot(Held(ss, i), ss[i])
  {
    hide AfterSlot;
  }
}
