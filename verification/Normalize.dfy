/** normalize_path of the shell: an absolute path without "." and "..". */
module Normalize {
  import opened Bytes
  import opened Names83
  import opened LongNames
  import opened Paths
  import opened Resolving

  const PATH_SIZE: nat := 256

  // ---------------------------------------------------------------- the specification

  /** The absolute path the function starts from, cut to 255 characters. */
  function Absolute(cwd: Text, input: Text): (p: Text)
    requires |cwd| < PATH_SIZE
    ensures |p| < PATH_SIZE
  {
    if input != [] && input[0] == SLASH then input[..Min(|input|, PATH_SIZE - 1)]
    else
      var base: seq<byte> := cwd + if 1 < |cwd| < PATH_SIZE - 1 then [SLASH] else [];
      base + input[..Min(|input|, PATH_SIZE - 1 - |base|)]
  }

  function Popped<T>(stack: seq<T>): seq<T> {
    if stack == [] then [] else stack[..|stack| - 1]
  }

  /** What one component does to the stack of components. */
  function Taken(stack: seq<seq<byte>>, c: seq<byte>): seq<seq<byte>> {
    if c == [DOT] then stack else if c == [DOT, DOT] then Popped(stack) else stack + [c]
  }

  /** The stack after a list of components. */
  function ReduceFrom(stack: seq<seq<byte>>, cs: seq<seq<byte>>): seq<seq<byte>>
    decreases |cs|
  {
    if cs == [] then stack else ReduceFrom(Taken(stack, cs[0]), cs[1..])
  }

  /** The stack reduction of a list of components. */
  function Reduce(cs: seq<seq<byte>>): seq<seq<byte>> {
    ReduceFrom([], cs)
  }

  lemma ReduceStep(stack: seq<seq<byte>>, c: seq<byte>, rest: seq<seq<byte>>)
    ensures ReduceFrom(stack, [c] + rest) == ReduceFrom(Taken(stack, c), rest)
  {
    assert ([c] + rest)[1..] == rest;
  }

  lemma {:induction false} ReduceFromSnoc(stack: seq<seq<byte>>, cs: seq<seq<byte>>, c: seq<byte>)
    ensures ReduceFrom(stack, cs + [c]) == Taken(ReduceFrom(stack, cs), c)
    decreases |cs|
  {
    hide Taken;
    if cs == [] {
      assert cs + [c] == [c] && [c][1..] == [];
      assert ReduceFrom(Taken(stack, c), []) == Taken(stack, c);
    } else {
      assert (cs + [c])[1..] == cs[1..] + [c];
      ReduceFromSnoc(Taken(stack, cs[0]), cs[1..], c);
    }
  }

  /** What the reduction is, component by component from the left: "." changes nothing, ".." takes the last component away
      if there is one, and any other component is added. */
  lemma ReduceMeans(cs: seq<seq<byte>>, c: seq<byte>)
    ensures Reduce([]) == []
    ensures Reduce(cs + [[46]]) == Reduce(cs)
    ensures Reduce(cs + [[46, 46]]) == if Reduce(cs) == [] then [] else Reduce(cs)[..|Reduce(cs)| - 1]
    ensures c != [46] && c != [46, 46] ==> Reduce(cs + [c]) == Reduce(cs) + [c]
  {
    hide ReduceFrom;
    ReduceFromSnoc([], cs, [46]);
    ReduceFromSnoc([], cs, [46, 46]);
    ReduceFromSnoc([], cs, c);
    NothingToReduce();
  }

  lemma NothingToReduce()
    ensures ReduceFrom([], []) == []
  {
  }

  /** The path it starts from: an absolute input as it is, a relative one behind the current directory, if they fit 255
      characters; otherwise as much of it as does. */
  lemma AbsoluteMeans(cwd: Text, input: Text)
    requires cwd != [] && cwd[0] == SLASH && |cwd| < PATH_SIZE
    ensures input != [] && input[0] == SLASH && |input| <= 255 ==> Absolute(cwd, input) == input
    ensures (input == [] || input[0] != SLASH) && |cwd| + 1 + |input| <= 255 ==>
              Components(Absolute(cwd, input)) == Components(cwd) + Components(input)
    ensures Absolute(cwd, input) <= (if input != [] && input[0] == SLASH then input
                                     else if 1 < |cwd| < 255 then cwd + [SLASH] + input else cwd + input)
    ensures |Absolute(cwd, input)| < 255 ==>
              |Absolute(cwd, input)| == if input != [] && input[0] == SLASH then |input|
                                        else if |cwd| == 1 then 1 + |input| else |cwd| + 1 + |input|
  {
    hide Components;
    if (input == [] || input[0] != SLASH) && |cwd| + 1 + |input| <= 255 {
      var p := Absolute(cwd, input);
      if |cwd| == 1 {
        var none: seq<byte> := [];
        ComponentsJoin(none, input);
        RootHasNone();
        ComponentsEmpty();
        assert cwd == [SLASH] && p == none + [SLASH] + input;
      } else {
        ComponentsJoin(cwd, input);
        assert p == cwd + [SLASH] + input;
      }
    }
  }

  predicate Plain(cs: seq<seq<byte>>) {
    forall i | 0 <= i < |cs| :: cs[i] != [DOT] && cs[i] != [DOT, DOT]
  }

  lemma {:induction false} ReduceIsPlain(stack: seq<seq<byte>>, cs: seq<seq<byte>>)
    requires Plain(stack)
    ensures Plain(ReduceFrom(stack, cs))
    decreases |cs|
  {
    if cs != [] {
      assert Plain(Taken(stack, cs[0]));
      ReduceIsPlain(Taken(stack, cs[0]), cs[1..]);
    }
  }

  lemma {:induction false} ReducePlain(stack: seq<seq<byte>>, cs: seq<seq<byte>>)
    requires Plain(cs)
    ensures ReduceFrom(stack, cs) == stack + cs
    decreases |cs|
  {
    if cs == [] {
      assert stack + cs == stack;
    } else {
      assert Plain(cs[1..]);
      ReducePlain(stack + [cs[0]], cs[1..]);
      assert cs == [cs[0]] + cs[1..];
      assert stack + [cs[0]] + cs[1..] == stack + cs;
    }
  }

  lemma NothingBefore<T>(s: seq<T>)
    ensures [] + s == s
  {
  }

  /** Reducing again changes nothing. */
  lemma ReduceTwice(cs: seq<seq<byte>>)
    ensures Reduce(Reduce(cs)) == Reduce(cs)
  {
    hide ReduceFrom;
    ReduceIsPlain([], cs);
    ReducePlain([], Reduce(cs));
    NothingBefore(Reduce(cs));
  }

  // ---------------------------------------------------------------- the string that holds the stack

  /** A path under construction: absolute, without double slashes. */
  predicate Tidy(s: seq<byte>) {
    && s != [] && s[0] == SLASH
    && forall k | 0 < k < |s| :: !(s[k - 1] == SLASH && s[k] == SLASH)
  }

  function WithSlash(s: seq<byte>): seq<byte>
    requires s != []
  {
    if |s| > 1 && s[|s| - 1] != SLASH then s + [SLASH] else s
  }

  /** s without its last component; the slash before it stays. */
  function Shortened(s: seq<byte>): (r: seq<byte>)
    requires Tidy(s)
    ensures r != [] && |r| <= |s| && r == s[..|r|]
  {
    if |s| == 1 then s
    else
      var e := if s[|s| - 1] == SLASH then s[..|s| - 1] else s;
      e[..Max(AfterLastSlash(e), 1)]
  }

  lemma PushKeeps(s: seq<byte>, c: seq<byte>)
    requires Tidy(s) && c != [] && SLASH !in c && |c| < NAME_SIZE
    ensures Tidy(WithSlash(s) + c) && Components(WithSlash(s) + c) == Components(s) + [c]
  {
    hide Components;
    var b := WithSlash(s);
    var front := b[..|b| - 1];
    assert b == front + [SLASH];
    assert front + [SLASH] + c == b + c;
    ComponentsSnoc(front, c);
    TrailingSlash(s);
    forall k | 0 < k < |b + c| ensures !((b + c)[k - 1] == SLASH && (b + c)[k] == SLASH) {
      assert k >= |b| ==> (b + c)[k] == c[k - |b|] && c[k - |b|] in c;
    }
  }

  /** A trailing slash carries no component. */
  lemma TrailingSlash(s: seq<byte>)
    requires s != [] && s[0] == SLASH
    ensures var b := WithSlash(s); b[|b| - 1] == SLASH && Components(b[..|b| - 1]) == Components(s)
  {
    hide Components;
    var b := WithSlash(s);
    var front := b[..|b| - 1];
    var none: seq<byte> := [];
    ComponentsSnoc(front, none);
    assert b == front + [SLASH] + none;
    if b == s {
      assert Components(front) + [] == Components(front);
    } else {
      assert front == s;
    }
  }

  lemma RootHasNone()
    ensures Components([SLASH]) == []
  {
    var none: seq<byte> := [];
    ComponentsSnoc(none, none);
    ComponentsEmpty();
    assert [SLASH] == none + [SLASH] + none;
  }

  lemma NamePopped(front: seq<byte>, name: seq<byte>)
    requires name != [] && SLASH !in name && |name| < NAME_SIZE
    ensures Components(front + [SLASH]) == Popped(Components(front + [SLASH] + name))
  {
    hide Components;
    var none: seq<byte> := [];
    ComponentsSnoc(front, name);
    ComponentsSnoc(front, none);
    assert front + [SLASH] + none == front + [SLASH];
    PoppedSnoc(Components(front), name);
  }

  lemma PoppedSnoc(cs: seq<seq<byte>>, c: seq<byte>)
    ensures Popped(cs + [c]) == cs && cs + [] == cs
  {
  }

  /** Cutting a path behind its last slash takes its last component away. */
  lemma CutBehindSlash(e: seq<byte>)
    requires e != [] && |e| <= NAME_SIZE && e[0] == SLASH && e[|e| - 1] != SLASH
    ensures Components(e[..AfterLastSlash(e)]) == Popped(Components(e))
  {
    hide Components, AfterLastSlash;
    LastSlashInside(e);
    var k := AfterLastSlash(e);
    SplitAt(e, k - 1);
    NamePopped(e[..k - 1], e[k..]);
    assert e[..k] == e[..k - 1] + [SLASH];
  }

  lemma PopKeeps(s: seq<byte>)
    requires Tidy(s) && |s| <= NAME_SIZE
    ensures Tidy(Shortened(s)) && Components(Shortened(s)) == Popped(Components(s))
  {
    hide Components, AfterLastSlash;
    if |s| == 1 {
      RootHasNone();
      assert s == [SLASH];
    } else {
      var e := if s[|s| - 1] == SLASH then s[..|s| - 1] else s;
      assert e[|e| - 1] != SLASH;
      LastSlashInside(e);
      CutBehindSlash(e);
      SameWithout(s, e);
    }
  }

  lemma LastSlashInside(e: seq<byte>)
    requires e != [] && e[0] == SLASH && e[|e| - 1] != SLASH
    ensures 0 < AfterLastSlash(e) < |e| && SLASH !in e[AfterLastSlash(e)..]
  {
  }

  lemma SameWithout(s: seq<byte>, e: seq<byte>)
    requires Tidy(s) && |s| > 1 && e == if s[|s| - 1] == SLASH then s[..|s| - 1] else s
    ensures Components(e) == Components(s)
  {
    hide Components;
    TrailingSlash(s);
    if e != s {
      assert WithSlash(s) == s;
    }
  }

  // ---------------------------------------------------------------- the arrays

  /** The first part of normalize_path: an absolute path in temp. */
  method BuildAbsolute(cwd: Text, input: Text, temp: array<byte>)
    requires temp.Length == PATH_SIZE && |cwd| < PATH_SIZE
    modifies temp
    ensures CString(temp[..]) == Absolute(cwd, input)
  {
    hide CString;
    ghost var p := Absolute(cwd, input);
    var length := 0;
    if |input| > 0 && input[0] == SLASH {
      while length < |input| && length < PATH_SIZE - 1
        invariant length <= |input| && length <= PATH_SIZE - 1
        invariant forall k | 0 <= k < length :: temp[k] == input[k]
      {
        temp[length] := input[length];
        length := length + 1;
      }
    } else {
      var i := 0;
      while i < |cwd| && i < PATH_SIZE - 1
        invariant 0 <= i <= |cwd| && forall k | 0 <= k < i :: temp[k] == cwd[k]
      {
        temp[i] := cwd[i];
        i := i + 1;
      }
      length := |cwd|;
      if length > 1 && length < PATH_SIZE - 1 {
        temp[length] := SLASH;
        length := length + 1;
      }
      ghost var base := length;
      i := 0;
      while i < |input| && length < PATH_SIZE - 1
        invariant 0 <= i <= |input| && length == base + i <= PATH_SIZE - 1
        invariant forall k | 0 <= k < length :: temp[k] == if k < |cwd| then cwd[k] else if k < base then SLASH else input[k - base]
      {
        temp[length] := input[i];
        length := length + 1;
        i := i + 1;
      }
    }
    temp[length] := 0;
    assert |p| == length && forall k | 0 <= k < length :: temp[k] == p[k];
    TerminatedAt(temp[..], p);
  }

  lemma TerminatedAt(b: seq<byte>, p: Text)
    requires |p| < |b| && b[|p|] == 0 && forall k | 0 <= k < |p| :: b[k] == p[k]
    ensures CString(b) == p
  {
    forall k | 0 <= k < |p| ensures b[k] != 0 {
      assert p[k] in p;
    }
    IndexOfUnique(b, 0, |p|);
    assert b[..|p|] == p;
  }

  /** The handling of "..": the length to which the result shrinks. */
  method PopComponent(result: array<byte>, length: nat) returns (length': nat)
    requires 0 < length <= result.Length && Tidy(result[..length])
    ensures length' <= length && result[..length'] == Shortened(result[..length])
  {
    hide AfterLastSlash;
    length' := length;
    ghost var s := result[..length];
    if length' > 1 {
      if length' > 1 && result[length' - 1] == SLASH {
        length' := length' - 1;
      }
      ghost var e := s[..length'];
      assert e == if s[|s| - 1] == SLASH then s[..|s| - 1] else s;
      while length' > 1 && result[length' - 1] != SLASH
        invariant 1 <= length' <= |e| && forall k | length' <= k < |e| :: e[k] != SLASH
      {
        length' := length' - 1;
      }
      AfterLastSlashUnique(e, length');
      assert e[..length'] == result[..length'];
    }
  }

  /** The handling of an ordinary component. The result has room for it, so nothing is cut off. */
  method PushComponent(result: array<byte>, length: nat, component: Text) returns (length': nat, full: bool)
    requires result.Length == PATH_SIZE && 0 < length < PATH_SIZE && |WithSlash(result[..length]) + component| < PATH_SIZE
    modifies result
    ensures !full && length' < PATH_SIZE && result[..length'] == WithSlash(old(result[..length])) + component
  {
    hide WithSlash;
    length', full := length, false;
    ghost var s := result[..length];
    ghost var b := WithSlash(s);
    WithSlashIs(s);
    if length' > 1 && result[length' - 1] != SLASH {
      if length' >= PATH_SIZE - 1 {
        full := true;
        return;
      }
      result[length'] := SLASH;
      length' := length' + 1;
    }
    assert |b| == length' && forall k | 0 <= k < |b| :: result[k] == b[k];
    var j := 0;
    while j < |component| && length' < PATH_SIZE - 1
      invariant 0 <= j <= |component| && length' == |b| + j < PATH_SIZE
      invariant forall k | 0 <= k < |b| :: result[k] == b[k]
      invariant forall k | 0 <= k < j :: result[|b| + k] == component[k]
    {
      result[length'] := component[j];
      length' := length' + 1;
      j := j + 1;
    }
    TwoParts(result[..length'], b, component);
  }

  lemma WithSlashIs(s: seq<byte>)
    requires s != []
    ensures var b := WithSlash(s);
            && |b| == (if |s| > 1 && s[|s| - 1] != SLASH then |s| + 1 else |s|)
            && (forall k | 0 <= k < |s| :: b[k] == s[k]) && (|b| > |s| ==> b[|s|] == SLASH)
  {
  }

  lemma TwoParts<T>(s: seq<T>, a: seq<T>, b: seq<T>)
    requires |s| == |a| + |b| && (forall k | 0 <= k < |a| :: s[k] == a[k]) && forall k | 0 <= k < |b| :: s[|a| + k] == b[k]
    ensures s == a + b
  {
  }

  // ---------------------------------------------------------------- the operation

  /** The path so far is the stack that the components before position i of p have left, in no more room than they took;
      what those from i on will do to it makes up the whole reduction. */
  ghost predicate Halfway(p: Text, i: nat, s: seq<byte>) {
    && i <= |p| && Tidy(s) && Reduce(Components(p)) == ReduceFrom(Components(s), Components(p[i..]))
    && (if i == 0 then |s| == 1 else |s| <= i) && (i < |p| ==> p[i] == SLASH)
  }

  lemma HalfwayStart(p: Text)
    requires p != [] && p[0] == SLASH
    ensures Halfway(p, 0, [SLASH])
  {
    hide Components;
    RootHasNone();
    assert p[0..] == p;
  }

  /** The component at position k and what is left behind it. */
  lemma PartAt(p: seq<byte>, k: nat)
    requires |p| < NAME_SIZE && k < |p| && p[k] != SLASH
    ensures var n := ComponentLength(p[k..]);
            && 0 < n && k + n <= |p| && SLASH !in p[k..k + n] && (k + n < |p| ==> p[k + n] == SLASH)
            && Components(p[k..]) == [p[k..k + n]] + Components(p[k + n..])
  {
    hide Components, SkipSlashes, ComponentLength;
    var q := p[k..];
    assert q[0] == p[k];
    ComponentEnds(q);
    ComponentsStep(q);
    Slices(p, k, ComponentLength(q));
  }

  lemma ComponentEnds(q: seq<byte>)
    requires q != [] && q[0] != SLASH && |q| < NAME_SIZE
    ensures var n := ComponentLength(q); 0 < n <= |q| && SLASH !in q[..n] && (n < |q| ==> q[n] == SLASH)
  {
  }

  lemma Slices<T>(p: seq<T>, k: nat, n: nat)
    requires k + n <= |p|
    ensures p[k..][..n] == p[k..k + n] && p[k..][n..] == p[k + n..]
    ensures n < |p[k..]| ==> p[k..][n] == p[k + n]
  {
  }

  lemma SkippedOn(p: seq<byte>, i: nat, k: nat)
    requires i <= k < |p| && p[k..] == SkipSlashes(p[i..]) && p[i] == SLASH
    ensures k > i && p[k] != SLASH
  {
    hide LeadingSlashes;
    assert p[k..][0] == p[k];
  }

  /** What handling component c makes of the path so far. */
  function Handled(s: seq<byte>, c: seq<byte>): seq<byte>
    requires Tidy(s)
  {
    if c == [DOT] then s else if c == [DOT, DOT] then Shortened(s) else WithSlash(s) + c
  }

  lemma HandledKeeps(s: seq<byte>, c: seq<byte>)
    requires Tidy(s) && |s| <= NAME_SIZE && c != [] && SLASH !in c && |c| < NAME_SIZE
    ensures Tidy(Handled(s, c)) && Components(Handled(s, c)) == Taken(Components(s), c)
    ensures |Handled(s, c)| <= (if |s| == 1 then |c| + 1 else |s| + |c| + 1)
    ensures |WithSlash(s) + c| <= (if |s| == 1 then |c| + 1 else |s| + |c| + 1)
  {
    hide Components, Tidy, Shortened;
    if c == [DOT] {
    } else if c == [DOT, DOT] {
      PopKeeps(s);
      ShortenedLength(s);
    } else {
      PushKeeps(s, c);
    }
  }

  /** One component handled: the one behind the slashes at position i. */
  lemma HalfwayOn(p: Text, i: nat, s: seq<byte>, k: nat)
    requires |p| < NAME_SIZE && Halfway(p, i, s) && i <= k < |p| && p[k..] == SkipSlashes(p[i..])
    ensures var n := ComponentLength(p[k..]);
            && 0 < n && k + n <= |p| && Tidy(s) && Halfway(p, k + n, Handled(s, p[k..k + n]))
            && |WithSlash(s) + p[k..k + n]| <= k + n
  {
    hide Components, SkipSlashes, ComponentLength, Tidy, Handled, WithSlash, Taken;
    SkippedOn(p, i, k);
    ComponentsStep(p[i..]);
    PartAt(p, k);
    var n := ComponentLength(p[k..]);
    var c := p[k..k + n];
    HandledKeeps(s, c);
    ReduceStep(Components(s), c, Components(p[k + n..]));
  }

  lemma ShortenedLength(s: seq<byte>)
    requires Tidy(s)
    ensures |Shortened(s)| <= |s|
  {
  }

  lemma AllDone(p: Text, i: nat, s: seq<byte>)
    requires |p| < NAME_SIZE && Halfway(p, i, s) && Components(p[i..]) == []
    ensures |s| < NAME_SIZE && s != [] && s[0] == SLASH && Components(s) == Reduce(Components(p))
  {
    hide Components;
  }

  /** The component loop of normalize_path. */
  method ReduceInto(path: Text, result: array<byte>) returns (length: nat)
    requires path != [] && path[0] == SLASH && |path| < PATH_SIZE && result.Length == PATH_SIZE
    modifies result
    ensures 0 < length < PATH_SIZE && result[0] == SLASH && Components(result[..length]) == Reduce(Components(path))
    ensures 0 !in result[..length]
  {
    hide Components, Halfway, SkipSlashes, ComponentLength, CString, Tidy, Shortened, WithSlash, Reduce;
    length := 1;
    result[0] := SLASH;
    assert result[..1] == [SLASH];
    HalfwayStart(path);
    var component := new byte[NAME_SIZE];
    var i: nat := 0;
    while i < |path|
      invariant 0 < length < PATH_SIZE && i <= |path| && Halfway(path, i, result[..length]) && 0 !in result[..length]
      decreases |path| - i
    {
      ghost var s := result[..length];
      ComponentsStep(path[i..]);
      var k := SkipFrom(path, i);
      if k == |path| {
        AllDone(path, i, s);
        return;
      }
      HalfwayOn(path, i, s, k);
      var n := ExtractComponent(path, k, component);
      var name := CString(component[..]);
      StaysText(s, name);
      if name == [DOT] {
      } else if name == [DOT, DOT] {
        length := PopComponent(result, length);
      } else {
        var full;
        length, full := PushComponent(result, length, name);
        if full {
          return;
        }
      }
      assert result[..length] == Handled(s, name);
      i := k + n;
    }
    assert path[i..] == [];
    ComponentsEmpty();
    AllDone(path, i, result[..length]);
  }

  lemma StaysText(s: seq<byte>, c: Text)
    requires Tidy(s) && s != [] && 0 !in s
    ensures 0 !in Shortened(s) && 0 !in WithSlash(s) + c && |Shortened(s)| > 0
  {
  }

  /** normalize_path. The output is as much of an absolute path of at most 255 characters as fits the caller's buffer; the
      components of that path are the stack reduction of those of the absolute path given, and a buffer of 256 bytes, as
      the shell uses, cuts nothing off. */
  method NormalizePath(cwd: Text, input: Text, output: array<byte>) returns (ghost whole: Text)
    requires cwd != [] && cwd[0] == SLASH && |cwd| < PATH_SIZE && output.Length > 0
    modifies output
    ensures |whole| < PATH_SIZE && whole != [] && whole[0] == SLASH
    ensures Components(whole) == Reduce(Components(Absolute(cwd, input)))
    ensures CString(output[..]) == whole[..Min(|whole|, output.Length - 1)]
    ensures output.Length >= PATH_SIZE ==> CString(output[..]) == whole
  {
    hide Components, CString, Reduce;
    var temp := new byte[PATH_SIZE];
    BuildAbsolute(cwd, input, temp);
    var path := CString(temp[..]);
    var result := new byte[PATH_SIZE];
    var length := ReduceInto(path, result);
    result[length] := 0;
    ghost var s := result[..];
    whole := s[..length];
    var j := 0;
    while result[j] != 0 && j < output.Length - 1
      invariant 0 <= j <= length && j <= output.Length - 1 && result[..] == s
      invariant forall k | 0 <= k < j :: output[k] == whole[k]
      decreases length - j
    {
      output[j] := result[j];
      j := j + 1;
    }
    output[j] := 0;
    assert j == Min(length, output.Length - 1) by {
      assert j < length ==> whole[j] == s[j] && whole[j] in whole;
    }
    TerminatedAt(output[..], whole[..j]);
    assert whole[..|whole|] == whole;
  }

  /** A second pass keeps the component list. (Not the string: after "..", a trailing slash stays, and goes the next time.) */
  lemma SecondPass(cwd: Text, input: Text, whole: Text, again: Text)
    requires |cwd| < PATH_SIZE && |whole| < PATH_SIZE && whole != [] && whole[0] == SLASH
    requires Components(whole) == Reduce(Components(Absolute(cwd, input)))
    requires Components(again) == Reduce(Components(Absolute(cwd, whole)))
    ensures Absolute(cwd, whole) == whole && Components(again) == Components(whole)
  {
    hide Components, Reduce;
    assert whole[..|whole|] == whole;
    ReduceTwice(Components(Absolute(cwd, input)));
  }
}
