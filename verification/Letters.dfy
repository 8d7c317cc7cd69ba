/** Names of one letter in a root directory that holds at most one entry: where they go and what they lead to. */
module Letters {
  import opened Bytes
  import opened Slots
  import opened Names83
  import opened LongNames
  import opened Trees
  import opened Paths
  import opened Plans
  import opened Formatted

  predicate Letter(c: byte) {
    c != 0 && c != SLASH && c != DOT
  }

  function PathTo(c: byte): Text
    requires Letter(c)
  {
    [SLASH, c]
  }

  lemma LetterName(c: byte)
    requires Letter(c)
    ensures Accepted([c]) && Encode([c])[0] == Upper(c) && SLASH !in [c]
  {
    IndexOfUnique([c], DOT, 1);
    assert Base([c]) == [c];
  }

  lemma LetterSplit(c: byte)
    requires Letter(c)
    ensures Split(PathTo(c)) == Some(([SLASH], [c])) && NameIn(PathTo(c)) == [c]
  {
    var p := PathTo(c);
    StrippedDone(p);
    AfterLastSlashUnique(p, 1);
    assert p[1..] == [c];
  }

  lemma LetterParent(m: Dirs, root: nat, c: byte)
    requires Letter(c)
    ensures ParentOf(m, root, PathTo(c)) == Parent(root, [c])
  {
    LetterSplit(c);
    var s: seq<byte> := [SLASH];
    assert s[1..] == [];
    ComponentsEmpty();
  }

  /** Nothing but the first slot has ever been used, and it is a live entry of that name. */
  ghost predicate Alone(ss: seq<Slot>, n: Name83) {
    && |ss| >= 2 && Live(ss[0]) && NameOf(ss[0]) == n
    && forall j | 1 <= j < |ss| :: ss[j] == Zeros(32)
  }

  lemma AloneAfterPut(ss: seq<Slot>, s: Slot)
    requires |ss| >= 2 && Live(s) && forall j | 1 <= j < |ss| :: ss[j] == Zeros(32)
    ensures Alone(ss[0 := s], NameOf(s))
  {
  }

  /** In an empty root a name goes to the first slot. */
  lemma EmptyPlace(m: Dirs, root: nat, c: byte)
    requires Letter(c) && root in m && |m[root]| > 0 && AllUnused(m[root])
    ensures NewPlace(m, root, PathTo(c)) == Place(root, 0)
  {
    hide ParentOf;
    LetterParent(m, root, c);
    LetterName(c);
    assert m[root][0] == Zeros(32);
    assert Find(m[root], [c], 0) == None && FreeIndex(m[root], 0) == Some(0);
  }

  lemma FindAlone(ss: seq<Slot>, n: Name83, c: byte)
    requires Letter(c) && Alone(ss, n) && Accepted([c])
    ensures n == Encode([c]) ==> Find(ss, [c], 0) == Some(0)
    ensures n[0] != Upper(c) ==> Find(ss, [c], 0) == None
    ensures FreeIndex(ss, 0) == Some(1)
  {
    hide Encode, Accepted, NameOf;
    LetterName(c);
    assert Used(ss[0]) && Held(ss, 0) == None && ss[1] == Zeros(32);
    assert Find(ss, [c], 1) == None;
    assert FreeIndex(ss, 1) == Some(1);
  }

  /** Beside a single entry another name goes to the second slot. */
  lemma BesidePlace(m: Dirs, root: nat, n: Name83, c: byte)
    requires Letter(c) && root in m && Alone(m[root], n) && n[0] != Upper(c)
    ensures NewPlace(m, root, PathTo(c)) == Place(root, 1)
  {
    hide ParentOf, Find, FreeIndex, Alone, Accepted;
    LetterParent(m, root, c);
    LetterName(c);
    FindAlone(m[root], n, c);
  }

  /** And its own name leads to it. */
  lemma AlonePlace(m: Dirs, root: nat, c: byte)
    requires Letter(c) && root in m && Accepted([c]) && Alone(m[root], Encode([c]))
    ensures OldPlace(m, root, PathTo(c)) == Place(root, 0)
  {
    hide ParentOf, Find, FreeIndex, Alone, Accepted, Encode;
    LetterParent(m, root, c);
    FindAlone(m[root], Encode([c]), c);
  }
}
