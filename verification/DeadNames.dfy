/** Names that begin with the byte 0xE5: the entry written for one is a deleted entry from the start. */
module DeadNames {
  import opened Bytes
  import opened Volumes
  import opened Slots
  import opened Names83
  import opened LongNames
  import opened Trees
  import opened TreeSteps
  import opened Paths
  import opened Resolving
  import opened Plans

  /** s took the place of a free slot of d and is itself marked deleted; what else m' holds beside m is nobody's. */
  ghost predicate DeadIn(m: Dirs, m': Dirs, d: nat, i: nat, s: Slot) {
    && d in m && FirstFree(m[d], i) && s[0] == DELETED
    && d in m' && m'[d] == m[d][i := s] && forall x | x in m && x != d :: x in m' && m'[x] == m[x]
  }

  lemma {:induction false} HeldDead(ss: seq<Slot>, i: nat, s: Slot, k: nat)
    requires i < |ss| && k <= |ss| && ss[i][0] == DELETED && s[0] == DELETED
    ensures Held(ss[i := s], k) == Held(ss, k)
  {
    if k > 0 {
      HeldDead(ss, i, s, k - 1);
    }
  }

  /** No lookup sees the difference. */
  lemma {:induction false} FindDead(ss: seq<Slot>, i: nat, s: Slot, name: seq<byte>, k: nat)
    requires FirstFree(ss, i) && TailUnused(ss) && k <= |ss| && s[0] == DELETED
    ensures Find(ss[i := s], name, k) == Find(ss, name, k)
    decreases |ss| - k
  {
    hide Encode, Accepted, Held, EqualFold, TailUnused;
    var ss' := ss[i := s];
    if k < |ss| {
      FindDead(ss, i, s, name, k + 1);
      if ss[i][0] == DELETED {
        HeldDead(ss, i, s, k);
      } else if k < i {
        HeldSame(ss, ss', i, k);
      } else {
        BehindEnd(ss, i, k);
        NothingBehind(ss, i, name, k + 1);
      }
    }
  }

  lemma BehindEnd(ss: seq<Slot>, i: nat, k: nat)
    requires TailUnused(ss) && i <= k < |ss| && ss[i][0] == 0
    ensures ss[k][0] == 0
  {
  }

  lemma NothingBehind(ss: seq<Slot>, i: nat, name: seq<byte>, k: nat)
    requires TailUnused(ss) && i < k <= |ss| && ss[i][0] == 0
    ensures Find(ss, name, k) == None
  {
    if k < |ss| {
      BehindEnd(ss, i, k);
    }
  }

  /** No path leads anywhere else than before. */
  lemma {:induction false} FollowDead(t: Tree, m: Dirs, m': Dirs, e: nat, cs: seq<seq<byte>>, d: nat, i: nat, s: Slot)
    requires SoundIn(t, m) && DeadIn(m, m', d, i, s) && e in t.dirs
    ensures Follow(m', e, cs) == Follow(m, e, cs)
    decreases |cs|
  {
    hide Find, TailUnused, DotsFirst, Live, IsDirectory, FirstFree, ClusterOf;
    if cs != [] {
      FindDead(m[d], i, s, cs[0], 0);
      if Find(m[e], cs[0], 0).Some? && |cs| > 1 {
        var f := Find(m[e], cs[0], 0).value;
        FoundIsLinked(t, m, e, cs[0]);
        FoundNotFree(m[d], i, cs[0]);
        if IsDirectory(m[e][f]) {
          FollowDead(t, m, m', ClusterOf(m[e][f]), cs[1..], d, i, s);
        }
      }
    }
  }

  lemma FoundNotFree(ss: seq<Slot>, i: nat, name: seq<byte>)
    requires FirstFree(ss, i)
    ensures i < |ss| && Find(ss, name, 0) != Some(i)
  {
    hide Matches, Find;
  }

  /** After create or mkdir under such a name the path leads nowhere, as before. */
  lemma DeadEntryMissing(t: Tree, m: Dirs, m': Dirs, root: nat, path: Text, s: Slot)
    requires SoundIn(t, m) && root in t.dirs && NewPlace(m, root, path).Place?
    requires DeadIn(m, m', NewPlace(m, root, path).dir, NewPlace(m, root, path).index, s)
    ensures Resolve(m', root, path) == Unresolved(NotFound)
  {
    hide Follow, Components, SoundIn, NewPlace;
    NewPlaceIsNew(m, root, path);
    FollowDead(t, m, m', root, Components(path[1..]), NewPlace(m, root, path).dir, NewPlace(m, root, path).index, s);
  }

  /** A path that leads nowhere still does when a file's entry is deleted. */
  lemma {:induction false} FollowMissing(t: Tree, m: Dirs, e: nat, cs: seq<seq<byte>>, d: nat, i: nat)
    requires SoundIn(t, m) && e in t.dirs && LiveIn(m, d, i) && !IsDirectory(m[d][i])
    requires Follow(m, e, cs) == Unresolved(NotFound)
    ensures Follow(Put(m, d, i, DeletedSlot(m[d][i])), e, cs) == Unresolved(NotFound)
    decreases |cs|
  {
    hide Find, TailUnused, DotsFirst, Live, IsDirectory, ClusterOf;
    var m' := Put(m, d, i, DeletedSlot(m[d][i]));
    LiveIsUsed(m[d][i]);
    if e == d && Find(m[d], cs[0], 0) != Some(i) {
      FindAfterDelete(m[d], i, cs[0], 0);
    }
    if Find(m[e], cs[0], 0).Some? {
      FoundIsLinked(t, m, e, cs[0]);
      FollowMissing(t, m, ClusterOf(m[e][Find(m[e], cs[0], 0).value]), cs[1..], d, i);
    }
  }

  lemma LiveIsUsed(s: Slot)
    requires Live(s)
    ensures Used(s) && s[0] != 0
  {
  }

  lemma ResolveMissing(t: Tree, m: Dirs, root: nat, path: seq<byte>, d: nat, i: nat)
    requires SoundIn(t, m) && root in t.dirs && LiveIn(m, d, i) && !IsDirectory(m[d][i])
    requires Resolve(m, root, path) == Unresolved(NotFound)
    ensures Resolve(Put(m, d, i, DeletedSlot(m[d][i])), root, path) == Unresolved(NotFound)
  {
    hide Follow, Components, SoundIn, Put, Live, IsDirectory;
    FollowMissing(t, m, root, Components(path[1..]), d, i);
  }
}
