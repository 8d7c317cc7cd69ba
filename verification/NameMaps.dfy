/** A directory without long names as a map from stored names to entries. */
module NameMaps {
  import opened Bytes
  import opened Slots
  import opened Names83
  import opened LongNames
  import opened Trees
  import opened Resolving

  // ---------------------------------------------------------------- the conditions

  /** No long-name slot is in use. */
  ghost predicate LongFree(ss: seq<Slot>) {
    forall i | 0 <= i < |ss| && !IsFree(ss[i]) :: !IsLong(ss[i])
  }

  ghost predicate UniqueNames(ss: seq<Slot>) {
    forall i, j | 0 <= i < j < |ss| && Live(ss[i]) && Live(ss[j]) :: NameOf(ss[i]) != NameOf(ss[j])
  }

  /** No live entry has a short name that starts with a dot. */
  ghost predicate PlainDots(ss: seq<Slot>) {
    forall i | 0 <= i < |ss| && Live(ss[i]) :: ss[i][0] != DOT
  }

  /** What makes a directory a map from names to entries. */
  ghost predicate MapLike(ss: seq<Slot>) {
    TailUnused(ss) && DotsFirst(ss) && LongFree(ss) && UniqueNames(ss) && PlainDots(ss)
  }

  ghost predicate AllMapLike(m: Dirs) {
    forall d | d in m :: MapLike(m[d])
  }

  ghost function Bindings(ss: seq<Slot>): (b: map<Name83, Slot>)
    requires UniqueNames(ss)
    ensures forall i | 0 <= i < |ss| && Live(ss[i]) :: NameOf(ss[i]) in b && b[NameOf(ss[i])] == ss[i]
    ensures forall n | n in b :: exists i :: 0 <= i < |ss| && Live(ss[i]) && NameOf(ss[i]) == n
  {
    map i | 0 <= i < |ss| && Live(ss[i]) :: NameOf(ss[i]) := ss[i]
  }

  // ---------------------------------------------------------------- lookup is map lookup

  lemma {:induction false} NoLongNames(ss: seq<Slot>, i: nat)
    requires LongFree(ss) && i <= |ss|
    ensures Held(ss, i) == None
  {
    if i > 0 {
      NoLongNames(ss, i - 1);
      assert IsFree(ss[i - 1]) || !IsLong(ss[i - 1]);
      if ss[i - 1][0] == 0 {
        FreshZero(ss[i - 1]);
      }
    }
  }

  /** A never-used slot starts no long name, whatever its attributes. */
  lemma FreshZero(s: Slot)
    requires s[0] == 0
    ensures AfterSlot(None, s) == None
  {
  }

  /** In a map-like directory fat32_find_in_directory is map lookup by the stored form of the name. */
  lemma FindIsLookup(ss: seq<Slot>, name: seq<byte>)
    requires MapLike(ss)
    ensures Find(ss, name, 0).Some? <==> Accepted(name) && Encode(name) in Bindings(ss)
    ensures Find(ss, name, 0).Some? ==> Bindings(ss)[Encode(name)] == ss[Find(ss, name, 0).value]
  {
    hide Encode, Accepted, Held, Find;
    var f := Find(ss, name, 0);
    if f.Some? {
      NoLongNames(ss, f.value);
      FoundIsLive(ss, name);
    } else {
      FindNone(ss, name, 0);
      forall i | 0 <= i < |ss| && Live(ss[i]) && Accepted(name) ensures NameOf(ss[i]) != Encode(name) {
        assert !(Used(ss[i]) && Matches(ss, i, name));
      }
    }
  }

  // ---------------------------------------------------------------- updates are map updates

  /** ss with s at place i is map-like again. */
  lemma MapLikeAfterPut(ss: seq<Slot>, i: nat, s: Slot)
    requires MapLike(ss) && i < |ss| && (FirstFree(ss, i) || Live(ss[i]))
    requires s[0] == DELETED || (Live(s) && s[0] != DOT)
    requires forall j | 0 <= j < |ss| && j != i && Live(ss[j]) && Live(s) :: NameOf(ss[j]) != NameOf(s)
    ensures MapLike(ss[i := s])
  {
    hide Live, IsLong, IsDot, NameOf;
    LiveFacts(s);
    LiveFacts(ss[i]);
    FreeFacts(s);
    FreeFacts(ss[i]);
    TailUnusedAfterUse(ss, i, s);
    DotsFirstAfterUse(ss, i, s);
    assert forall j | 0 <= j < |ss| && j != i :: ss[i := s][j] == ss[j];
  }

  lemma LiveFacts(s: Slot)
    ensures Live(s) ==> !IsDot(s) && !IsLong(s) && !IsFree(s) && s[0] != 0
  {
  }

  lemma FreeFacts(s: Slot)
    ensures IsFree(s) ==> !Live(s) && !IsDot(s)
  {
  }

  ghost predicate Binds(ss: seq<Slot>, n: Name83, s: Slot) {
    exists i :: 0 <= i < |ss| && Live(ss[i]) && NameOf(ss[i]) == n && ss[i] == s
  }

  lemma BindingAt(ss: seq<Slot>, n: Name83, s: Slot)
    requires UniqueNames(ss)
    ensures Binds(ss, n, s) <==> n in Bindings(ss) && Bindings(ss)[n] == s
  {
    hide Live, NameOf, Bindings;
  }

  lemma BindsAfterPut(ss: seq<Slot>, i: nat, s: Slot, n: Name83, x: Slot)
    requires i < |ss| && UniqueNames(ss) && UniqueNames(ss[i := s])
    ensures Binds(ss[i := s], n, x) <==>
              (Live(s) && NameOf(s) == n && x == s) ||
              (Binds(ss, n, x) && !(Live(s) && NameOf(s) == n) && !(Live(ss[i]) && NameOf(ss[i]) == n))
  {
    hide Live, NameOf;
    var ss' := ss[i := s];
    assert ss'[i] == s;
    assert forall j | 0 <= j < |ss| && j != i :: ss'[j] == ss[j];
    if Binds(ss, n, x) && !(Live(s) && NameOf(s) == n) && !(Live(ss[i]) && NameOf(ss[i]) == n) {
      var j :| 0 <= j < |ss| && Live(ss[j]) && NameOf(ss[j]) == n && ss[j] == x;
      assert ss'[j] == x;
    }
    if Binds(ss', n, x) {
      var j :| 0 <= j < |ss'| && Live(ss'[j]) && NameOf(ss'[j]) == n && ss'[j] == x;
      if j != i {
        assert ss[j] == x;
      }
    }
  }

  /** The bindings after slot i was replaced: whatever i bound is gone, what s binds is there, the rest is as before. */
  lemma BindingsAfterPut(ss: seq<Slot>, i: nat, s: Slot)
    requires i < |ss| && UniqueNames(ss) && UniqueNames(ss[i := s])
    ensures var gone: set<Name83> := if Live(ss[i]) then {NameOf(ss[i])} else {};
            Bindings(ss[i := s]) == if Live(s) then (Bindings(ss) - gone)[NameOf(s) := s] else Bindings(ss) - gone
  {
    hide Live, NameOf, Bindings, Binds, UniqueNames;
    var gone: set<Name83> := if Live(ss[i]) then {NameOf(ss[i])} else {};
    var b := if Live(s) then (Bindings(ss) - gone)[NameOf(s) := s] else Bindings(ss) - gone;
    var b' := Bindings(ss[i := s]);
    forall n | n in b' ensures n in b && b[n] == b'[n] {
      BindingAt(ss[i := s], n, b'[n]);
      BindsAfterPut(ss, i, s, n, b'[n]);
      BindingAt(ss, n, b'[n]);
    }
    forall n | n in b ensures n in b' {
      BindingAt(ss[i := s], n, b[n]);
      BindsAfterPut(ss, i, s, n, b[n]);
      BindingAt(ss, n, b[n]);
    }
  }

  /** Putting a new entry into the first free slot adds one binding. */
  lemma AddBinding(ss: seq<Slot>, i: nat, s: Slot)
    requires MapLike(ss) && FirstFree(ss, i) && Live(s) && s[0] != DOT && NameOf(s) !in Bindings(ss)
    ensures MapLike(ss[i := s]) && Bindings(ss[i := s]) == Bindings(ss)[NameOf(s) := s]
  {
    hide Live, NameOf, Bindings;
    FreeFacts(ss[i]);
    MapLikeAfterPut(ss, i, s);
    BindingsAfterPut(ss, i, s);
    var none: set<Name83> := {};
    assert Bindings(ss) - none == Bindings(ss);
  }

  /** Deleting an entry removes its binding. */
  lemma RemoveBinding(ss: seq<Slot>, i: nat)
    requires MapLike(ss) && i < |ss| && Live(ss[i])
    ensures MapLike(ss[i := DeletedSlot(ss[i])])
    ensures Bindings(ss[i := DeletedSlot(ss[i])]) == Bindings(ss) - {NameOf(ss[i])}
  {
    hide Live, NameOf, Bindings, DeletedSlot;
    FreeFacts(DeletedSlot(ss[i]));
    MapLikeAfterPut(ss, i, DeletedSlot(ss[i]));
    BindingsAfterPut(ss, i, DeletedSlot(ss[i]));
  }

  /** Rewriting a live entry under its own name rebinds that name. */
  lemma UpdateBinding(ss: seq<Slot>, i: nat, s: Slot)
    requires MapLike(ss) && i < |ss| && Live(ss[i]) && Live(s) && NameOf(s) == NameOf(ss[i])
    ensures MapLike(ss[i := s]) && Bindings(ss[i := s]) == Bindings(ss)[NameOf(s) := s]
  {
    hide Live, Bindings;
    assert s[0] == NameOf(s)[0] && ss[i][0] == NameOf(ss[i])[0];
    MapLikeAfterPut(ss, i, s);
    BindingsAfterPut(ss, i, s);
    assert (Bindings(ss) - {NameOf(s)})[NameOf(s) := s] == Bindings(ss)[NameOf(s) := s];
  }
}
