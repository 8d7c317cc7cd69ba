/** Cluster chains as values: links, chains, walks, and what changing one entry does to them. */
module Chains {
  import opened Geometry
  import opened Volumes

  /** What an entry says about the cluster after it. */
  datatype Link = To(next: nat) | End | Broken

  function LinkOf(fat: seq<nat>, c: nat): Link
    requires c < |fat|
  {
    var v := fat[c];
    if v >= EOC_MIN then End
    else if v == BAD || v < 2 || v >= |fat| then Broken
    else To(v)
  }

  predicate OnVolume(fat: seq<nat>, c: nat) {
    2 <= c < |fat|
  }

  predicate Distinct(ch: seq<nat>) {
    forall i, j | 0 <= i < j < |ch| :: ch[i] != ch[j]
  }

  /** ch is a run of clusters on the volume, each linked to the next; on a cyclic FAT it may come by one again. */
  ghost predicate IsTrail(fat: seq<nat>, ch: seq<nat>) {
    && |ch| > 0
    && (forall i | 0 <= i < |ch| :: OnVolume(fat, ch[i]))
    && (forall i | 0 <= i < |ch| - 1 :: LinkOf(fat, ch[i]) == To(ch[i + 1]))
  }

  /** ch is such a run of distinct clusters. */
  ghost predicate IsPath(fat: seq<nat>, ch: seq<nat>) {
    && |ch| > 0
    && (forall i | 0 <= i < |ch| :: OnVolume(fat, ch[i]))
    && (forall i | 0 <= i < |ch| - 1 :: LinkOf(fat, ch[i]) == To(ch[i + 1]))
    && Distinct(ch)
  }

  /** A path that ends in an end-of-chain mark. */
  ghost predicate IsChain(fat: seq<nat>, ch: seq<nat>) {
    IsPath(fat, ch) && LinkOf(fat, ch[|ch| - 1]) == End
  }

  lemma PathStep(fat: seq<nat>, ch: seq<nat>, i: nat)
    requires IsPath(fat, ch) && i < |ch|
    ensures OnVolume(fat, ch[i])
    ensures i < |ch| - 1 ==> LinkOf(fat, ch[i]) == To(ch[i + 1])
  {
  }

  // ---------------------------------------------------------------- length

  /** Pigeonhole: distinct clusters cannot outnumber the volume's. */
  lemma {:induction false} DistinctBound(ch: seq<nat>, n: nat)
    requires Distinct(ch) && forall i | 0 <= i < |ch| :: 2 <= ch[i] < n + 2
    ensures |ch| <= n
    decreases n
  {
    assert |ch| > 0 ==> 2 <= ch[0] < n + 2;
    if |ch| == 0 {
    } else if exists k :: 0 <= k < |ch| && ch[k] == n + 1 {
      var k :| 0 <= k < |ch| && ch[k] == n + 1;
      DistinctBound(ch[..k] + ch[k + 1..], n - 1);
    } else {
      DistinctBound(ch, n - 1);
    }
  }

  lemma PathLength(fat: seq<nat>, ch: seq<nat>)
    requires IsPath(fat, ch)
    ensures |ch| + 2 <= |fat|
  {
    assert OnVolume(fat, ch[0]);
    forall i | 0 <= i < |ch| ensures 2 <= ch[i] < (|fat| - 2) + 2 {
      assert OnVolume(fat, ch[i]);
    }
    DistinctBound(ch, |fat| - 2);
  }

  /** A head has at most one chain. */
  lemma {:induction false} ChainUnique(fat: seq<nat>, a: seq<nat>, b: seq<nat>)
    requires IsChain(fat, a) && IsChain(fat, b) && a[0] == b[0]
    ensures a == b
    decreases |b| < |a|
  {
    if |b| < |a| {
      ChainUnique(fat, b, a);
    } else {
      var k := 0;
      while k < |a| - 1
        invariant 0 <= k < |a| <= |b| && a[..k + 1] == b[..k + 1]
      {
        assert LinkOf(fat, a[k]) == To(a[k + 1]);
        assert b[..k + 1][k] == b[k];
        k := k + 1;
      }
      assert a[..|a|][|a| - 1] == b[..|a|][|a| - 1];
      assert a == b[..|a|];
      PathStep(fat, b, |a| - 1);
    }
  }

  // ---------------------------------------------------------------- the effect of an update

  lemma PathFrame(fat: seq<nat>, fat': seq<nat>, ch: seq<nat>)
    requires IsPath(fat, ch) && |fat'| == |fat|
    requires forall c | c in ch[..|ch| - 1] && c < |fat| :: fat'[c] == fat[c]
    ensures IsPath(fat', ch)
  {
    forall i | 0 <= i < |ch| ensures OnVolume(fat', ch[i]) {
      assert OnVolume(fat, ch[i]);
    }
    forall i | 0 <= i < |ch| - 1 ensures LinkOf(fat', ch[i]) == To(ch[i + 1]) {
      assert LinkOf(fat, ch[i]) == To(ch[i + 1]) && ch[i] in ch[..|ch| - 1];
    }
  }

  /** A chain none of whose entries changed is still a chain. */
  lemma ChainFrame(fat: seq<nat>, fat': seq<nat>, ch: seq<nat>)
    requires IsChain(fat, ch) && |fat'| == |fat|
    requires forall c | c in ch && c < |fat| :: fat'[c] == fat[c]
    ensures IsChain(fat', ch)
  {
    PathFrame(fat, fat', ch);
    assert ch[|ch| - 1] in ch;
  }

  /** Marking the k-th cluster as the end leaves the first k + 1. */
  lemma ChainCut(fat: seq<nat>, ch: seq<nat>, k: nat, mark: nat)
    requires IsPath(fat, ch) && k < |ch| && mark >= EOC_MIN
    ensures ch[k] < |fat| && IsChain(fat[ch[k] := mark], ch[..k + 1])
  {
    assert OnVolume(fat, ch[k]);
    var part := ch[..k + 1];
    var fat' := fat[ch[k] := mark];
    forall i | 0 <= i < |part| ensures OnVolume(fat', part[i]) {
      assert OnVolume(fat, ch[i]);
    }
    forall i | 0 <= i < |part| - 1 ensures LinkOf(fat', part[i]) == To(part[i + 1]) {
      assert LinkOf(fat, ch[i]) == To(ch[i + 1]);
    }
  }

  /** Linking a marked cluster behind the last one makes the chain one longer. */
  lemma ChainExtend(fat: seq<nat>, ch: seq<nat>, c: nat)
    requires IsChain(fat, ch) && OnVolume(fat, c) && c !in ch && LinkOf(fat, c) == End && |fat| <= BAD
    ensures ch[|ch| - 1] < |fat| && IsChain(fat[ch[|ch| - 1] := c], ch + [c])
  {
    var last := ch[|ch| - 1];
    assert OnVolume(fat, last);
    var fat' := fat[last := c];
    var longer := ch + [c];
    forall i | 0 <= i < |longer| ensures OnVolume(fat', longer[i]) {
      if i < |ch| {
        assert OnVolume(fat, ch[i]);
      }
    }
    forall i | 0 <= i < |longer| - 1 ensures LinkOf(fat', longer[i]) == To(longer[i + 1]) {
      if i < |ch| - 1 {
        assert LinkOf(fat, ch[i]) == To(ch[i + 1]);
      }
    }
    assert ch[|ch| - 1] in ch;
  }

  /** A free cluster is on no path except as its last cluster, and on no chain. */
  lemma FreeNotOnChain(fat: seq<nat>, ch: seq<nat>, c: nat)
    requires IsChain(fat, ch) && c < |fat| && fat[c] == 0
    ensures c !in ch
  {
    forall i | 0 <= i < |ch| ensures ch[i] != c {
      assert OnVolume(fat, ch[i]);
      if i < |ch| - 1 {
        assert LinkOf(fat, ch[i]) == To(ch[i + 1]);
      }
    }
  }

  // ---------------------------------------------------------------- walking

  /** fat32_get_cluster_at's loop: n links from c, or the status of the first step that fails. */
  function Walk(fat: seq<nat>, c: nat, n: nat): (Status, nat)
    requires OnVolume(fat, c)
    ensures Walk(fat, c, n).0 == Ok ==> OnVolume(fat, Walk(fat, c, n).1)
    decreases n
  {
    if n == 0 then (Ok, c) else
    match LinkOf(fat, c)
    case To(next) => Walk(fat, next, n - 1)
    case End => (EndOfFile, 0)
    case Broken => (Error, 0)
  }

  /** Walking a chain reaches its n-th cluster, and past its end reports the end. */
  lemma {:induction false} WalkChain(fat: seq<nat>, ch: seq<nat>, i: nat, n: nat)
    requires IsChain(fat, ch) && i < |ch| && OnVolume(fat, ch[i])
    ensures Walk(fat, ch[i], n) == if i + n < |ch| then (Ok, ch[i + n]) else (EndOfFile, 0)
    decreases n
  {
    if n > 0 && i < |ch| - 1 {
      assert LinkOf(fat, ch[i]) == To(ch[i + 1]);
      WalkChain(fat, ch, i + 1, n - 1);
    }
  }

  /** What a walk that comes to the end of a run of links reports. */
  function EndStatus(fat: seq<nat>, c: nat): Status
    requires c < |fat|
  {
    if LinkOf(fat, c) == End then EndOfFile else Error
  }

  /** Walking any run of links reaches its n-th cluster; past its end, if no link leads on, it reports why. */
  lemma {:induction false} WalkTrail(fat: seq<nat>, ch: seq<nat>, i: nat, n: nat)
    requires IsTrail(fat, ch) && i < |ch| && OnVolume(fat, ch[i]) && OnVolume(fat, ch[|ch| - 1])
    ensures i + n < |ch| ==> Walk(fat, ch[i], n) == (Ok, ch[i + n])
    ensures i + n >= |ch| && !LinkOf(fat, ch[|ch| - 1]).To? ==> Walk(fat, ch[i], n) == (EndStatus(fat, ch[|ch| - 1]), 0)
    decreases n
  {
    if n > 0 && i < |ch| - 1 {
      assert LinkOf(fat, ch[i]) == To(ch[i + 1]);
      assert OnVolume(fat, ch[i + 1]);
      WalkTrail(fat, ch, i + 1, n - 1);
    }
  }

  /** From every cluster there is a run of any given length, or one that no link leads on from. */
  lemma {:induction false} TrailExists(fat: seq<nat>, c: nat, n: nat) returns (ch: seq<nat>)
    requires OnVolume(fat, c)
    ensures IsTrail(fat, ch) && ch[0] == c && ch[|ch| - 1] < |fat|
    ensures |ch| > n || !LinkOf(fat, ch[|ch| - 1]).To?
    decreases n
  {
    ch := [c];
    if n > 0 && LinkOf(fat, c).To? {
      var rest := TrailExists(fat, LinkOf(fat, c).next, n - 1);
      ch := [c] + rest;
      forall i | 0 <= i < |ch| - 1 ensures LinkOf(fat, ch[i]) == To(ch[i + 1]) {
        if i > 0 {
          assert LinkOf(fat, rest[i - 1]) == To(rest[i]);
        }
      }
    }
  }
}
