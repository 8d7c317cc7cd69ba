/** Releasing clusters: the walk that frees a chain, on every FAT content. */
module Freeing {
  import opened Geometry
  import opened Volumes
  import opened FatTable
  import opened Chains

  // ---------------------------------------------------------------- the walk as a function

  function NonZero(fat: seq<nat>): nat {
    if |fat| == 0 then 0 else NonZero(fat[..|fat| - 1]) + (if fat[|fat| - 1] != 0 then 1 else 0)
  }

  lemma {:induction false} NonZeroUpdate(fat: seq<nat>, c: nat)
    requires c < |fat|
    ensures NonZero(fat[c := 0]) == NonZero(fat) - (if fat[c] != 0 then 1 else 0)
    decreases |fat|
  {
    var n := |fat| - 1;
    if c < n {
      NonZeroUpdate(fat[..n], c);
      assert fat[c := 0][..n] == fat[..n][c := 0];
    } else {
      assert fat[c := 0][..n] == fat[..n];
    }
  }

  /** The loop of fat32_free_cluster_chain: the FAT it leaves and what it returns. The number of non-zero entries falls
      with every link followed, so it ends on any FAT, cyclic ones included. */
  function FreeWalk(fat: seq<nat>, c: nat): (seq<nat>, Status)
    requires OnVolume(fat, c)
    decreases NonZero(fat)
  {
    NonZeroUpdate(fat, c);
    match LinkOf(fat, c)
    case End => (fat[c := 0], Ok)
    case Broken => (fat[c := 0], Error)
    case To(next) => FreeWalk(fat[c := 0], next)
  }

  function Wiped(fat: seq<nat>, ch: seq<nat>): (w: seq<nat>)
    ensures |w| == |fat|
  {
    seq(|fat|, c requires 0 <= c < |fat| => if c in ch then 0 else fat[c])
  }

  /** On any FAT, the clusters zeroed are exactly those of one path from the head, and the walk succeeds exactly when
      that path is a chain. */
  lemma {:induction false} FreeWalkPath(fat: seq<nat>, c: nat) returns (p: seq<nat>)
    requires OnVolume(fat, c)
    ensures IsPath(fat, p) && p[0] == c
    ensures FreeWalk(fat, c).0 == Wiped(fat, p)
    ensures FreeWalk(fat, c).1 == if IsChain(fat, p) then Ok else Error
    decreases NonZero(fat)
  {
    var fat' := fat[c := 0];
    NonZeroUpdate(fat, c);
    match LinkOf(fat, c)
    case End =>
      p := [c];
      assert FreeWalk(fat, c).0 == Wiped(fat, p);
    case Broken =>
      p := [c];
      assert FreeWalk(fat, c).0 == Wiped(fat, p);
    case To(next) =>
      var q := FreeWalkPath(fat', next);
      var m := if q[|q| - 1] == c then |q| - 1 else |q|;
      p := [c] + q[..m];
      ConsPath(fat, c, q, m);
      assert forall x :: x in p <==> x == c || x in q by {
        assert q == q[..m] + q[m..];
      }
      assert FreeWalk(fat, c).0 == Wiped(fat, p);
  }

  lemma PathAvoids(fat: seq<nat>, q: seq<nat>, c: nat)
    requires IsPath(fat, q) && c < |fat| && fat[c] == 0
    ensures c !in q[..|q| - 1]
    ensures q[|q| - 1] == c ==> !IsChain(fat, q)
  {
    forall i | 0 <= i < |q| - 1 ensures q[i] != c {
      PathStep(fat, q, i);
    }
  }

  /** Putting c in front of a path of the FAT in which c has been zeroed. */
  lemma ConsPath(fat: seq<nat>, c: nat, q: seq<nat>, m: nat)
    requires OnVolume(fat, c) && IsPath(fat[c := 0], q) && LinkOf(fat, c) == To(q[0])
    requires m == (if q[|q| - 1] == c then |q| - 1 else |q|)
    ensures IsPath(fat, [c] + q[..m]) && (IsChain(fat, [c] + q[..m]) <==> IsChain(fat[c := 0], q))
  {
    var p := [c] + q[..m];
    PathAvoids(fat[c := 0], q, c);
    forall i | 0 <= i < m ensures OnVolume(fat, q[i]) && q[i] != c {
      PathStep(fat[c := 0], q, i);
      assert i < |q| - 1 ==> q[i] in q[..|q| - 1];
    }
    forall i | 0 <= i < |p| - 1 ensures LinkOf(fat, p[i]) == To(p[i + 1]) {
      if i > 0 {
        PathStep(fat[c := 0], q, i - 1);
      }
    }
    if m > 0 {
      PathStep(fat[c := 0], q, m - 1);
    }
  }

  /** Freeing a chain frees all of it and nothing else, and succeeds. */
  lemma {:induction false} FreeWalkChain(fat: seq<nat>, ch: seq<nat>, i: nat)
    requires IsChain(fat, ch) && i < |ch|
    ensures OnVolume(Wiped(fat, ch[..i]), ch[i])
    ensures FreeWalk(Wiped(fat, ch[..i]), ch[i]) == (Wiped(fat, ch), Ok)
    decreases |ch| - i
  {
    var now := Wiped(fat, ch[..i]);
    PathStep(fat, ch, i);
    assert ch[i] !in ch[..i];
    assert ch[..i + 1] == ch[..i] + [ch[i]];
    assert now[ch[i] := 0] == Wiped(fat, ch[..i + 1]);
    if i == |ch| - 1 {
      assert ch[..i + 1] == ch;
    } else {
      FreeWalkChain(fat, ch, i + 1);
    }
  }

  /** The walk succeeds exactly on the heads of chains. */
  lemma FreeWalkSucceeds(fat: seq<nat>, c: nat)
    requires OnVolume(fat, c)
    ensures FreeWalk(fat, c).1 == Ok <==> exists ch :: IsChain(fat, ch) && ch[0] == c
  {
    var p := FreeWalkPath(fat, c);
    forall ch | IsChain(fat, ch) && ch[0] == c ensures FreeWalk(fat, c).1 == Ok {
      FreeWalkChain(fat, ch, 0);
      assert Wiped(fat, ch[..0]) == fat;
    }
  }

  // ---------------------------------------------------------------- the operations

  /** Each entry of `mid` is still as in `start`, or is zero for good. */
  ghost predicate Thinned(start: seq<nat>, mid: seq<nat>, final: seq<nat>) {
    && |start| == |mid| == |final|
    && forall c | 0 <= c < |mid| :: mid[c] == start[c] || mid[c] == 0 == final[c]
  }

  /** Every block boundary since the journal was `before` has the data of v and a FAT between v's and `final`. */
  ghost predicate ThinningOnly(before: seq<View>, after: seq<View>, v: View, final: seq<nat>) {
    && before <= after
    && forall i | |before| <= i < |after| :: after[i].data == v.data && Thinned(v.fat, after[i].fat, final)
  }

  /** One turn of that loop: read the link, then zero the entry. */
  method FreeOne(fs: Volume, current: nat) returns (r: Status, next: nat)
    requires fs.Ready() && fs.g.InRange(current)
    modifies fs`journal, fs.device, fs.sectorBuffer
    ensures fs.Ready() && r == Ok && next == old(fs.Now()).fat[current]
    ensures fs.Now() == old(fs.Now()).(fat := old(fs.Now()).fat[current := 0])
    ensures old(fs.journal) <= fs.journal
    ensures forall i | |old(fs.journal)| <= i < |fs.journal| :: fs.journal[i] == fs.Now()
  {
    r, next := ReadFatEntry(fs, current);
    if r != Ok {
      return;
    }
    r := WriteFatEntry(fs, current, 0);
  }

  /** fat32_free_cluster_chain: on every FAT it ends, and has the effect and the result of FreeWalk. */
  method FreeClusterChain(fs: Volume, first: nat) returns (r: Status)
    requires fs.Ready()
    modifies fs`journal, fs.device, fs.sectorBuffer
    ensures fs.Ready()
    ensures first == 0 ==> r == Ok
    ensures first != 0 && !fs.g.InRange(first) ==> r == Error
    ensures !fs.g.InRange(first) ==> fs.Now() == old(fs.Now()) && fs.journal == old(fs.journal)
    ensures fs.g.InRange(first) ==> (fs.Now().fat, r) == FreeWalk(old(fs.Now()).fat, first)
    ensures fs.g.InRange(first) ==> fs.Now().data == old(fs.Now()).data
    ensures fs.g.InRange(first) ==> ThinningOnly(old(fs.journal), fs.journal, old(fs.Now()), fs.Now().fat)
  {
    hide Kept, ViewOf;
    if first == 0 {
      return Ok;
    }
    if first < 2 || first > fs.g.totalClusters + 1 {
      return Error;
    }
    ghost var v := fs.Now();
    ghost var j := fs.journal;
    ghost var fat: seq<nat> := v.fat;
    var current: nat := first;
    while true
      invariant fs.Ready() && fs.Now() == v.(fat := fat) && OnVolume(fat, current)
      invariant FreeWalk(v.fat, first) == FreeWalk(fat, current)
      invariant Thinned(v.fat, fat, fat) && ThinningOnly(j, fs.journal, v, fat)
      decreases NonZero(fat)
    {
      var next;
      r, next := FreeOne(fs, current);
      if r != Ok {
        return;
      }
      NonZeroUpdate(fat, current);
      fat := fat[current := 0];
      if next >= EOC_MIN {
        return Ok;
      }
      if next == BAD {
        return Error;
      }
      if next < 2 || next > fs.g.totalClusters + 1 {
        return Error;
      }
      current := next;
    }
  }

  /** What fat32_free_cluster_chain_after makes of a FAT: cut behind c, then free what followed. */
  function CutAfter(fat: seq<nat>, c: nat): (seq<nat>, Status)
    requires OnVolume(fat, c)
  {
    match LinkOf(fat, c)
    case End => (fat[c := EOC], Ok)
    case Broken => (fat[c := EOC], Error)
    case To(next) => FreeWalk(fat[c := EOC], next)
  }

  /** fat32_free_cluster_chain_after: the cut comes first, so no boundary shows c linked to a freed cluster. */
  method FreeClusterChainAfter(fs: Volume, cluster: nat) returns (r: Status)
    requires fs.Ready()
    modifies fs`journal, fs.device, fs.sectorBuffer
    ensures fs.Ready() && fs.Now().data == old(fs.Now()).data
    ensures !fs.g.InRange(cluster) ==> r == Error && fs.Now() == old(fs.Now()) && fs.journal == old(fs.journal)
    ensures fs.g.InRange(cluster) ==> (fs.Now().fat, r) == CutAfter(old(fs.Now()).fat, cluster)
    ensures fs.g.InRange(cluster) ==>
              ThinningOnly(old(fs.journal), fs.journal, old(fs.Now()).(fat := old(fs.Now()).fat[cluster := EOC]), fs.Now().fat)
    ensures fs.g.InRange(cluster) ==> |fs.journal| > |old(fs.journal)|
  {
    hide Kept, ViewOf;
    if cluster < 2 || cluster > fs.g.totalClusters + 1 {
      return Error;
    }
    var next;
    r, next := ReadFatEntry(fs, cluster);
    if r != Ok {
      return;
    }
    r := WriteFatEntry(fs, cluster, EOC);
    if r != Ok {
      return;
    }
    if next >= EOC_MIN {
      return Ok;
    }
    if next == BAD || next < 2 || next > fs.g.totalClusters + 1 {
      return Error;
    }
    ghost var v := fs.Now();
    ghost var j := fs.journal;
    r := FreeClusterChain(fs, next);
    assert ThinningOnly(j, fs.journal, v, fs.Now().fat);
  }

  /** Cutting a chain after its k-th cluster keeps exactly the first k + 1 clusters and frees exactly the rest. */
  lemma CutAfterChain(fat: seq<nat>, ch: seq<nat>, k: nat)
    requires IsChain(fat, ch) && k < |ch|
    ensures OnVolume(fat, ch[k])
    ensures CutAfter(fat, ch[k]) == (Wiped(fat, ch[k + 1..])[ch[k] := EOC], Ok)
    ensures IsChain(CutAfter(fat, ch[k]).0, ch[..k + 1])
  {
    PathStep(fat, ch, k);
    ChainCut(fat, ch, k, EOC);
    var cut := fat[ch[k] := EOC];
    var rest := ch[k + 1..];
    if |rest| == 0 {
      assert Wiped(fat, rest) == fat;
    } else {
      SuffixChain(fat, cut, ch, k + 1);
      FreeWalkChain(cut, rest, 0);
      assert Wiped(cut, rest[..0]) == cut;
      assert Wiped(cut, rest) == Wiped(fat, rest)[ch[k] := EOC];
      ChainFrame(cut, Wiped(cut, rest), ch[..k + 1]);
    }
  }

  lemma SuffixChain(fat: seq<nat>, fat': seq<nat>, ch: seq<nat>, k: nat)
    requires IsChain(fat, ch) && 0 < k < |ch| && |fat'| == |fat|
    requires forall c | 0 <= c < |fat| && c != ch[k - 1] :: fat'[c] == fat[c]
    ensures IsChain(fat', ch[k..])
  {
    var rest := ch[k..];
    forall i | 0 <= i < |rest| ensures OnVolume(fat', rest[i]) {
      PathStep(fat, ch, k + i);
    }
    forall i | 0 <= i < |rest| - 1 ensures LinkOf(fat', rest[i]) == To(rest[i + 1]) {
      PathStep(fat, ch, k + i);
    }
    PathStep(fat, ch, |ch| - 1);
  }
}
