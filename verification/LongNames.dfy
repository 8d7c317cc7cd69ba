/** Long names: putting one together from the fragments that precede a short entry, and looking a name up. */
module LongNames {
  import opened Bytes
  import opened Slots
  import opened Names83

  const LFN_LAST: nat := 0x40
  const QUESTION: byte := 63
  const LFN_SIZE: nat := 256

  type NameBuffer = s: seq<byte> | |s| == 256 witness Zeros(256)

  // ---------------------------------------------------------------- fragments

  function Sequence(s: Slot): nat {
    var b: int := s[0];
    b % 32
  }

  /** Where in the slot character i of a fragment is. */
  function CharOffset(i: nat): nat
    requires i < 13
  {
    if i < 5 then 1 + 2 * i else if i < 11 then 14 + 2 * (i - 5) else 28 + 2 * (i - 11)
  }

  function CharAt(s: Slot, i: nat): nat
    requires i < 13
  {
    Le16(s, CharOffset(i))
  }

  predicate Blank(c: nat) {
    c == 0 || c == 0xFFFF
  }

  function Ascii(c: nat): byte {
    if c <= 0x7F then c else QUESTION
  }

  /** The buffer after characters 0 <= i < n of a fragment are laid down from position `base` on, none at `last` or behind. */
  function Laid(buffer: seq<byte>, last: int, s: Slot, base: int, n: nat): (r: seq<byte>)
    requires n <= 13
    ensures |r| == |buffer| && forall k | 0 <= k < |buffer| && !(base <= k < base + n && k < last) :: r[k] == buffer[k]
  {
    if n == 0 then buffer
    else
      var before := Laid(buffer, last, s, base, n - 1);
      var c := CharAt(s, n - 1);
      if Blank(c) || !(0 <= base + n - 1 < last) || base + n - 1 >= |buffer| then before
      else before[base + n - 1 := Ascii(c)]
  }

  /** The buffer after a whole fragment; fragment number 0 has no place and leaves it as it is. */
  function FragmentTo(buffer: seq<byte>, last: int, s: Slot): (r: seq<byte>)
    ensures |r| == |buffer|
  {
    if Sequence(s) == 0 then buffer else Laid(buffer, last, s, 13 * (Sequence(s) - 1), 13)
  }

  /** The same with a zero kept at the buffer's end. */
  function WithFragment(buffer: seq<byte>, s: Slot): (r: seq<byte>)
    ensures |r| == |buffer|
  {
    FragmentTo(buffer, |buffer| - 1, s)
  }

  /** lfn_write_chars on a buffer declared to be of that size. Declared to be of size 0 it is written to without a bound (the
      size less one wraps around), so that there must be room for the whole fragment. */
  method LfnWriteChars(output: array<byte>, outputSize: nat, s: Slot)
    requires outputSize <= output.Length < U32 && (outputSize == 0 ==> 13 * Sequence(s) <= output.Length)
    modifies output
    ensures output[..] == FragmentTo(old(output[..]), if outputSize == 0 then output.Length else outputSize - 1, s)
  {
    var sequence := Sequence(s);
    if sequence == 0 {
      return;
    }
    var base := (sequence - 1) * 13;
    ghost var last := if outputSize == 0 then output.Length else outputSize - 1;
    var i := 0;
    while i < 13
      invariant 0 <= i <= 13 && output[..] == Laid(old(output[..]), last, s, base, i)
    {
      var c := CharAt(s, i);
      if !(c == 0x0000 || c == 0xFFFF) && base + i < (outputSize + U32 - 1) % U32 {
        output[base + i] := if c <= 0x7F then c else QUESTION;
      }
      i := i + 1;
    }
  }

  /** A position just below zero, as fragment 0 has, lays down nothing. */
  lemma {:induction false} LaidNowhere(buffer: NameBuffer, s: Slot, n: nat)
    requires n <= 13
    ensures Laid(buffer, 255, s, -13, n) == buffer
  {
    if n > 0 {
      LaidNowhere(buffer, s, n - 1);
    }
  }

  /** Positions below zero wrap around to far behind the buffer. */
  lemma WrappedPosition(base: int, position: nat, k: nat)
    requires (0 <= base < 13 * 31 || base == -13) && position == base % U32 && k < 13
    ensures (position + k) % U32 < LFN_SIZE - 1 <==> 0 <= base + k < 255
    ensures 0 <= base + k < 255 ==> (position + k) % U32 == base + k
  {
  }

  /** One of the three copy loops inlined in fat32_find_in_directory: n characters of the fragment from number `first`,
      stored from `position` on in 32-bit arithmetic. */
  method CopyFragmentPart(name: array<byte>, s: Slot, position: nat, first: nat, n: nat, ghost start: NameBuffer, ghost base: int)
    requires name.Length == LFN_SIZE && first + n <= 13
    requires position == base % U32 && (0 <= base < 13 * 31 || base == -13)
    requires name[..] == Laid(start, 255, s, base, first)
    modifies name
    ensures name[..] == Laid(start, 255, s, base, first + n)
  {
    var j := 0;
    while j < n
      invariant 0 <= j <= n && name[..] == Laid(start, 255, s, base, first + j)
    {
      var c := CharAt(s, first + j);
      WrappedPosition(base, position, first + j);
      if !(c == 0x0000 || c == 0xFFFF) {
        var at := (position + (first + j)) % U32;
        if at < LFN_SIZE - 1 {
          name[at] := if c <= 0x7F then c else QUESTION;
        }
      }
      j := j + 1;
    }
  }

  /** The fragment handling inlined in fat32_find_in_directory: there (0 - 1) * 13 wraps around to a position far outside
      the buffer, so that fragment 0 is ignored just the same. */
  method InlinedFragment(name: array<byte>, s: Slot)
    requires name.Length == LFN_SIZE
    modifies name
    ensures name[..] == WithFragment(old(name[..]), s)
  {
    hide Laid;
    ghost var start := name[..];
    var sequence := Sequence(s);
    var position := ((sequence - 1) % U32) * 13 % U32;
    ghost var base := (sequence - 1) * 13;
    assert position == base % U32;
    LaidNone(start, s, base);
    CopyFragmentPart(name, s, position, 0, 5, start, base);
    CopyFragmentPart(name, s, position, 5, 6, start, base);
    CopyFragmentPart(name, s, position, 11, 2, start, base);
    LaidNowhere(start, s, 13);
  }

  lemma LaidNone(buffer: NameBuffer, s: Slot, base: int)
    ensures Laid(buffer, 255, s, base, 0) == buffer
  {
  }

  // ---------------------------------------------------------------- the machine

  /** The name being put together: none, or the buffer so far. */
  function AfterSlot(held: Option<NameBuffer>, s: Slot): Option<NameBuffer> {
    if s[0] == DELETED then None
    else if IsLong(s) then
      var fresh_ := if HasBit(s[0], LFN_LAST) then Some(Zeros(256)) else held;
      match fresh_
      case None => None
      case Some(b) => Some(WithFragment(b, s))
    else None
  }

  /** The long name held when the scan of a directory reaches slot i. */
  function Held(ss: seq<Slot>, i: nat): Option<NameBuffer>
    requires i <= |ss|
  {
    if i == 0 then None else AfterSlot(Held(ss, i - 1), ss[i - 1])
  }

  /** A buffer, or any bytes, read as a C string. */
  function CString(b: seq<byte>): (t: Text)
    ensures |t| <= |b|
  {
    b[..IndexOf(b, 0)]
  }

  predicate Used(s: Slot) {
    !IsFree(s) && !IsLong(s) && !IsLabel(s)
  }

  /** The name fat32_readdir reports for slot i. */
  function Reported(ss: seq<Slot>, i: nat): Text
    requires i < |ss|
  {
    match Held(ss, i)
    case Some(b) => CString(b)
    case None => CString(Display(NameOf(ss[i])))
  }

  function Lower(c: byte): byte {
    if 65 <= c <= 90 then c + 32 else c
  }

  predicate EqualFold(a: seq<byte>, b: seq<byte>) {
    |a| == |b| && forall i | 0 <= i < |a| :: Lower(a[i]) == Lower(b[i])
  }

  /** fat32_find_in_directory's test: the long name ignoring case, else the stored short name. */
  predicate Matches(ss: seq<Slot>, i: nat, name: seq<byte>)
    requires i < |ss|
  {
    || (Held(ss, i).Some? && EqualFold(name, CString(Held(ss, i).value)))
    || (Accepted(name) && NameOf(ss[i]) == Encode(name))
  }

  /** The slot a lookup finds: the first matching one before the end of the directory. */
  function Find(ss: seq<Slot>, name: seq<byte>, i: nat): (r: Option<nat>)
    requires i <= |ss|
    ensures r.Some? ==> i <= r.value < |ss| && Used(ss[r.value]) && Matches(ss, r.value, name)
    decreases |ss| - i
  {
    if i == |ss| || ss[i][0] == 0 then None
    else if Used(ss[i]) && Matches(ss, i, name) then Some(i)
    else Find(ss, name, i + 1)
  }

  /** A lookup finds a match that is there, or an earlier one; if it finds nothing, nothing matches. */
  lemma {:induction false} FindFirst(ss: seq<Slot>, name: seq<byte>, i: nat, k: nat)
    requires i <= k < |ss| && (forall j | i <= j <= k :: ss[j][0] != 0) && Used(ss[k]) && Matches(ss, k, name)
    ensures Find(ss, name, i).Some? && Find(ss, name, i).value <= k
    decreases k - i
  {
    if i < k && !(Used(ss[i]) && Matches(ss, i, name)) {
      FindFirst(ss, name, i + 1, k);
    }
  }

  lemma {:induction false} FindNone(ss: seq<Slot>, name: seq<byte>, i: nat)
    requires i <= |ss| && TailUnused(ss) && Find(ss, name, i) == None
    ensures forall j | i <= j < |ss| :: !(Used(ss[j]) && Matches(ss, j, name))
    decreases |ss| - i
  {
    if i < |ss| && ss[i][0] != 0 {
      FindNone(ss, name, i + 1);
    }
  }

  /** A name that fat32_readdir reports for a slot, from a long name or from a canonical short name, is found by lookup,
      at that slot or at an earlier match. */
  lemma ReportedIsFound(ss: seq<Slot>, i: nat)
    requires i < |ss| && TailUnused(ss) && Used(ss[i])
    requires Held(ss, i) == None ==> Canonical(NameOf(ss[i]))
    ensures Find(ss, Reported(ss, i), 0).Some? && Find(ss, Reported(ss, i), 0).value <= i
  {
    if Held(ss, i) == None {
      DisplayThenEncode(NameOf(ss[i]));
      CStringWhole(Display(NameOf(ss[i])));
    }
    assert Matches(ss, i, Reported(ss, i));
    FindFirst(ss, Reported(ss, i), 0, i);
  }

  lemma CStringWhole(b: seq<byte>)
    requires 0 !in b
    ensures CString(b) == b
  {
    IndexOfUnique(b, 0, |b|);
  }
}
