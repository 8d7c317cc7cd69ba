/** Short names: the eight-plus-three form stored in a slot and the dotted form shown to users. */
module Names83 {
  import opened Bytes
  import opened Slots

  function Upper(c: byte): byte {
    if 97 <= c <= 122 then c - 32 else c
  }

  function Uppercase(s: seq<byte>): (u: seq<byte>)
    ensures |u| == |s|
  {
    seq(|s|, i requires 0 <= i < |s| => Upper(s[i]))
  }

  function Spaces(n: nat): (s: seq<byte>)
    ensures |s| == n && forall i | 0 <= i < n :: s[i] == SPACE
  {
    seq(n, i => SPACE)
  }

  /** The index of the first c in s, or its length. */
  function IndexOf(s: seq<byte>, c: byte): (n: nat)
    ensures n <= |s| && (n < |s| ==> s[n] == c) && forall i | 0 <= i < n :: s[i] != c
  {
    if |s| == 0 || s[0] == c then 0 else 1 + IndexOf(s[1..], c)
  }

  lemma IndexOfUnique(s: seq<byte>, c: byte, n: nat)
    requires n <= |s| && (n < |s| ==> s[n] == c) && forall i | 0 <= i < n :: s[i] != c
    ensures IndexOf(s, c) == n
  {
  }

  function Base(s: seq<byte>): seq<byte> {
    s[..IndexOf(s, DOT)]
  }

  /** What follows the first dot; nothing if there is none. */
  function Extension(s: seq<byte>): seq<byte> {
    if IndexOf(s, DOT) == |s| then [] else s[IndexOf(s, DOT) + 1..]
  }

  predicate Accepted(s: seq<byte>) {
    |Base(s)| <= 8 && |Extension(s)| <= 3
  }

  /** The slot name of an accepted name: base and extension in upper case, each padded with spaces. */
  function Encode(s: seq<byte>): Name83
    requires Accepted(s)
  {
    Uppercase(Base(s)) + Spaces(8 - |Base(s)|) + Uppercase(Extension(s)) + Spaces(3 - |Extension(s)|)
  }

  lemma UppercaseAppend(s: seq<byte>, t: seq<byte>)
    ensures Uppercase(s + t) == Uppercase(s) + Uppercase(t)
  {
  }

  lemma UppercaseStep(o: seq<byte>, at: nat, p: seq<byte>, c: byte)
    requires at + |p| + 1 <= |o|
    ensures Splice(o, at, Uppercase(p))[at + |p| := Upper(c)] == Splice(o, at, Uppercase(p + [c]))
  {
  }

  /** part runs from `from` to the next dot (if that stops the loop) or to the end. */
  ghost predicate PartFrom(input: seq<byte>, from: nat, stopAtDot: bool, part: seq<byte>) {
    && from + |part| <= |input| && part == input[from..from + |part|]
    && (forall k | from <= k < from + |part| :: !(stopAtDot && input[k] == DOT))
    && (from + |part| < |input| ==> stopAtDot && input[from + |part|] == DOT)
  }

  /** The loop that copies one part of the name in upper case, giving up when the part is longer than `room`. */
  method CopyPart(input: Text, from: nat, stopAtDot: bool, output: array<byte>, at: nat, room: nat, ghost part: seq<byte>)
    returns (ok: bool, end: nat)
    requires PartFrom(input, from, stopAtDot, part) && at + room <= output.Length
    modifies output
    ensures ok <==> |part| <= room
    ensures ok ==> end == from + |part| && output[..] == Splice(old(output[..]), at, Uppercase(part))
  {
    hide Uppercase, Splice, Upper;
    ghost var o := output[..];
    end := from;
    SpliceNothing(o, at);
    while end < |input| && !(stopAtDot && input[end] == DOT)
      invariant from <= end <= from + |part| && end - from <= room
      invariant output[..] == Splice(o, at, Uppercase(part[..end - from]))
    {
      assert end - from < |part| && part[end - from] == input[end];
      if end - from >= room {
        return false, end;
      }
      UppercaseStep(o, at, part[..end - from], input[end]);
      assert part[..end - from + 1] == part[..end - from] + [input[end]];
      output[at + (end - from)] := Upper(input[end]);
      end := end + 1;
    }
    assert part[..|part|] == part;
    return true, end;
  }

  lemma SpliceNothing(o: seq<byte>, at: nat)
    requires at <= |o|
    ensures Splice(o, at, Uppercase([])) == o
  {
  }

  lemma PartsFrom(s: seq<byte>)
    ensures PartFrom(s, 0, true, Base(s))
    ensures |Base(s)| < |s| ==> PartFrom(s, |Base(s)| + 1, false, Extension(s))
  {
  }

  /** make_83_name. */
  method MakeName83(input: Text) returns (ok: bool, output: array<byte>)
    ensures fresh(output) && output.Length == 11
    ensures ok <==> Accepted(input)
    ensures ok ==> output[..] == Encode(input)
  {
    hide Base, IndexOf, Uppercase;
    output := new byte[11](i => SPACE);
    assert output[..] == Spaces(11);
    PartsOf(input);
    PartsFrom(input);
    var i;
    ok, i := CopyPart(input, 0, true, output, 0, 8, Base(input));
    if !ok {
      return;
    }
    if i == |input| {
      EncodeFilled(input);
      return;
    }
    i := i + 1;
    ok, i := CopyPart(input, i, false, output, 8, 3, Extension(input));
    EncodeFilled(input);
  }

  lemma PartsOf(s: seq<byte>)
    ensures |Base(s)| <= |s|
    ensures Extension(s) == if |Base(s)| == |s| then [] else s[|Base(s)| + 1..]
  {
  }

  lemma EncodeFilled(s: Text)
    ensures Accepted(s) ==>
              Splice(Splice(Spaces(11), 0, Uppercase(Base(s))), 8, Uppercase(Extension(s))) == Encode(s)
  {
    if Accepted(s) {
      var b, e := Uppercase(Base(s)), Uppercase(Extension(s));
      assert Splice(Splice(Spaces(11), 0, b), 8, e) == b + Spaces(8 - |b|) + e + Spaces(3 - |e|);
    }
  }

  /** The characters before the first space. */
  function Trimmed(s: seq<byte>): seq<byte> {
    s[..IndexOf(s, SPACE)]
  }

  /** The dotted form of a slot name. */
  function Display(name: Name83): seq<byte> {
    Trimmed(name[..8]) + if name[8..] == Spaces(3) then [] else [DOT] + Trimmed(name[8..])
  }

  /** What fits of t before position limit. */
  function Fitting(t: seq<byte>, at: nat, limit: nat): (r: seq<byte>)
    requires at <= limit
    ensures |r| == Min(|t|, limit - at) && r <= t
  {
    t[..Min(|t|, limit - at)]
  }

  /** The loop that copies one part of a stored name up to its first space, as far as there is room. */
  method CopyTrimmed(part: seq<byte>, output: array<byte>, at: nat, limit: nat) returns (pos: nat)
    requires at <= limit < output.Length
    modifies output
    ensures var t := Fitting(Trimmed(part), at, limit); pos == at + |t| && output[..] == Splice(old(output[..]), at, t)
  {
    var i := 0;
    while i < |part| && part[i] != SPACE && at + i < limit
      invariant 0 <= i <= |part| && at + i <= limit && SPACE !in part[..i]
      invariant output[..] == Splice(old(output[..]), at, part[..i])
    {
      output[at + i] := part[i];
      assert part[..i + 1] == part[..i] + [part[i]];
      i := i + 1;
    }
    TrimmedUpTo(part, i);
    return at + i;
  }

  lemma TrimmedUpTo(part: seq<byte>, i: nat)
    requires i <= |part| && SPACE !in part[..i]
    ensures i <= |Trimmed(part)| && Trimmed(part)[..i] == part[..i]
    ensures i == |part| || part[i] == SPACE ==> i == |Trimmed(part)|
  {
    assert forall k | 0 <= k < i :: part[k] == part[..i][k];
    if i == |part| || part[i] == SPACE {
      IndexOfUnique(part, SPACE, i);
    }
  }

  /** What make_83_display_name puts into a buffer of that size: as much of the dotted form as there is room for, and a
      zero; into a buffer of size 0, nothing. */
  function Shown(name: Name83, size: nat): seq<byte> {
    if size == 0 then [] else Fitting(Display(name), 0, size - 1) + [0]
  }

  /** A buffer of 13 bytes is enough for any short name. */
  lemma ShownWhole(name: Name83, size: nat)
    requires size >= 13
    ensures |Display(name)| <= 12 && Shown(name, size) == Display(name) + [0]
  {
    hide Trimmed;
    TrimmedLength(name[..8]);
    TrimmedLength(name[8..]);
  }

  /** make_83_display_name, for a buffer of any size. */
  method MakeDisplayName(name: Name83, output: array<byte>) returns (length: nat)
    modifies output
    ensures length == Min(|Display(name)|, Max(0, output.Length - 1))
    ensures |Shown(name, output.Length)| <= output.Length
    ensures output[..] == Splice(old(output[..]), 0, Shown(name, output.Length))
  {
    hide Trimmed, Splice;
    length := 0;
    ghost var o, b, e := output[..], Trimmed(name[..8]), Trimmed(name[8..]);
    if output.Length == 0 {
      SpliceNone(o, 0);
      return;
    }
    var limit := output.Length - 1;
    length := CopyTrimmed(name[..8], output, 0, limit);
    var hasExtension := name[8] != SPACE || name[9] != SPACE || name[10] != SPACE;
    assert hasExtension <==> name[8..] != Spaces(3) by {
      assert name[8] == name[8..][0] && name[9] == name[8..][1] && name[10] == name[8..][2];
    }
    if hasExtension && length < limit {
      SpliceOne(o, b, DOT);
      output[length] := DOT;
      length := length + 1;
      ghost var part := Fitting(e, length, limit);
      length := CopyTrimmed(name[8..], output, length, limit);
      SpliceAdjacent(o, 0, b + [DOT], part);
      assert b + [DOT] + part == Fitting(Display(name), 0, limit);
    } else {
      assert Fitting(b, 0, limit) == Fitting(Display(name), 0, limit) by {
        assert b + [] == b;
      }
    }
    SpliceOne(o, Fitting(Display(name), 0, limit), 0);
    output[length] := 0;
  }

  lemma SpliceOne(o: seq<byte>, t: seq<byte>, c: byte)
    requires |t| < |o|
    ensures Splice(o, 0, t)[|t| := c] == Splice(o, 0, t + [c])
  {
  }

  lemma TrimmedLength(s: seq<byte>)
    ensures |Trimmed(s)| <= |s|
  {
  }

  // ---------------------------------------------------------------- round trips

  /** A part of a stored name as Encode writes it: upper case, no NUL, spaces only at the end. */
  predicate Padded(s: seq<byte>) {
    && 0 !in s && (forall i | 0 <= i < |s| :: Upper(s[i]) == s[i])
    && forall i, j | 0 <= i < j < |s| && s[i] == SPACE :: s[j] == SPACE
  }

  predicate Canonical(name: Name83) {
    Padded(name[..8]) && Padded(name[8..]) && DOT !in name[..8]
  }

  lemma TrimmedPadded(s: seq<byte>)
    requires Padded(s)
    ensures s == Trimmed(s) + Spaces(|s| - |Trimmed(s)|) && Uppercase(Trimmed(s)) == Trimmed(s)
    ensures Trimmed(s) == [] <==> s == Spaces(|s|)
  {
    var n := IndexOf(s, SPACE);
    forall i | n <= i < |s| ensures s[i] == SPACE {
    }
    if Trimmed(s) == [] && |s| > 0 {
      assert s == Spaces(|s|);
    }
  }

  lemma DottedParts(base: seq<byte>, rest: seq<byte>)
    requires DOT !in base
    ensures Base(base + [DOT] + rest) == base && Extension(base + [DOT] + rest) == rest
    ensures Base(base) == base && Extension(base) == []
  {
    IndexOfUnique(base + [DOT] + rest, DOT, |base|);
    IndexOfUnique(base, DOT, |base|);
  }

  /** Showing a stored name and storing what is shown gives the stored name back. */
  lemma DisplayThenEncode(name: Name83)
    requires Canonical(name)
    ensures 0 !in Display(name) && Accepted(Display(name)) && Encode(Display(name)) == name
  {
    hide IndexOf, Uppercase, Padded, Base, Extension;
    var b, e := Trimmed(name[..8]), Trimmed(name[8..]);
    TrimmedPadded(name[..8]);
    TrimmedPadded(name[8..]);
    TrimmedIsPrefix(name[..8]);
    TrimmedIsPrefix(name[8..]);
    DottedParts(b, e);
    assert name == name[..8] + name[8..];
    if name[8..] != Spaces(3) {
      assert Display(name) == b + [DOT] + e;
    } else {
      assert Display(name) == b + [] == b;
      assert Trimmed(name[8..]) == [];
    }
  }

  lemma TrimmedIsPrefix(s: seq<byte>)
    ensures Trimmed(s) <= s
    ensures Padded(s) ==> 0 !in Trimmed(s)
    ensures DOT !in s ==> DOT !in Trimmed(s)
  {
  }

  lemma EncodeIsCanonical(s: Text)
    requires Accepted(s) && SPACE !in s
    ensures Canonical(Encode(s))
    ensures Trimmed(Encode(s)[..8]) == Uppercase(Base(s)) && Trimmed(Encode(s)[8..]) == Uppercase(Extension(s))
  {
    var n := Encode(s);
    var b, e := Uppercase(Base(s)), Uppercase(Extension(s));
    assert n[..8] == b + Spaces(8 - |b|) && n[8..] == e + Spaces(3 - |e|);
    forall i | 0 <= i < |b| ensures b[i] != SPACE && b[i] != DOT && b[i] != 0 && Upper(b[i]) == b[i] {
      assert Base(s)[i] in s;
    }
    forall i | 0 <= i < |e| ensures e[i] != SPACE && e[i] != 0 && Upper(e[i]) == e[i] {
      assert Extension(s)[i] in s;
    }
    IndexOfUnique(n[..8], SPACE, |b|);
    IndexOfUnique(n[8..], SPACE, |e|);
  }

  /** A name survives storing and showing, up to case, exactly if it has no space and does not end in its first dot. */
  lemma EncodeThenDisplay(s: Text)
    requires Accepted(s)
    ensures Display(Encode(s)) == Uppercase(s) <==> SPACE !in s && IndexOf(s, DOT) != |s| - 1
  {
    hide Display, Encode;
    if SPACE in s {
      var i :| 0 <= i < |s| && s[i] == SPACE;
      assert Uppercase(s)[i] == SPACE;
      DisplayHasNoSpace(Encode(s));
    } else {
      DisplayOfEncode(s);
      UppercaseParts(s);
    }
  }

  lemma DisplayOfEncode(s: Text)
    requires Accepted(s) && SPACE !in s
    ensures Display(Encode(s)) == Uppercase(Base(s)) + if Extension(s) == [] then [] else [DOT] + Uppercase(Extension(s))
  {
    hide Encode, Padded;
    EncodeIsCanonical(s);
    TrimmedPadded(Encode(s)[8..]);
  }

  lemma SplitAt(s: seq<byte>, k: nat)
    requires k < |s|
    ensures s == s[..k] + [s[k]] + s[k + 1..]
  {
  }

  lemma WholeName(s: seq<byte>)
    ensures IndexOf(s, DOT) == |s| ==> s == Base(s)
    ensures IndexOf(s, DOT) < |s| ==> s == Base(s) + [DOT] + Extension(s)
    ensures |Extension(s)| == if IndexOf(s, DOT) == |s| then 0 else |s| - IndexOf(s, DOT) - 1
  {
    hide IndexOf;
    if IndexOf(s, DOT) < |s| {
      SplitAt(s, IndexOf(s, DOT));
    }
  }

  lemma UppercaseParts(s: seq<byte>)
    ensures IndexOf(s, DOT) == |s| ==> Uppercase(s) == Uppercase(Base(s)) && Extension(s) == []
    ensures IndexOf(s, DOT) < |s| ==> Uppercase(s) == Uppercase(Base(s)) + [DOT] + Uppercase(Extension(s))
    ensures IndexOf(s, DOT) == |s| - 1 <==> IndexOf(s, DOT) < |s| && Extension(s) == []
  {
    hide Uppercase, IndexOf, Base, Extension;
    WholeName(s);
    UppercaseAppend(Base(s) + [DOT], Extension(s));
    UppercaseAppend(Base(s), [DOT]);
    UppercaseDot();
  }

  lemma UppercaseDot()
    ensures Uppercase([DOT]) == [DOT]
  {
  }

  lemma DisplayHasNoSpace(name: Name83)
    ensures SPACE !in Display(name)
  {
  }

  /** Case does not matter to what is stored. */
  lemma EncodeIgnoresCase(s: Text)
    requires Accepted(s)
    ensures 0 !in Uppercase(s) && Accepted(Uppercase(s)) && Encode(Uppercase(s)) == Encode(s)
  {
    hide IndexOf;
    var u := Uppercase(s);
    forall i | 0 <= i < |s| ensures (u[i] == DOT <==> s[i] == DOT) && Upper(u[i]) == u[i] && u[i] != 0 {
      assert s[i] in s;
    }
    IndexOfUnique(u, DOT, IndexOf(s, DOT));
    assert Base(u) == Uppercase(Base(s)) && Extension(u) == Uppercase(Extension(s));
    assert Uppercase(Base(u)) == Base(u) && Uppercase(Extension(u)) == Extension(u);
  }

  /** Two such names are stored alike exactly if they match ignoring case. */
  lemma EncodeInjective(a: Text, b: Text)
    requires Accepted(a) && SPACE !in a && IndexOf(a, DOT) != |a| - 1
    requires Accepted(b) && SPACE !in b && IndexOf(b, DOT) != |b| - 1
    ensures Encode(a) == Encode(b) <==> Uppercase(a) == Uppercase(b)
  {
    hide Encode, Display;
    EncodeThenDisplay(a);
    EncodeThenDisplay(b);
    EncodeIgnoresCase(a);
    EncodeIgnoresCase(b);
  }
}
