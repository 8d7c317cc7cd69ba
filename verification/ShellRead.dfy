/** The loop of the shell's rd command: a file read through a buffer, chunk by chunk. */
module ShellRead {
  import opened Bytes
  import opened Geometry
  import opened Volumes
  import opened Contents
  import opened FileRead
  import opened Trees
  import opened FileWrite
  import opened FileTree
  import opened TreeSpec
  import opened Runs

  lemma ChunkTaken(b: seq<byte>, from: nat, n: nat, o: seq<byte>, o': seq<byte>)
    requires from + n <= |b| && n <= |o| && o' == Splice(o, 0, b[from..from + n])
    ensures o'[..n] == b[from..from + n] && b[..from] + o'[..n] == b[..from + n]
  {
    assert o'[..n] == b[from..from + n];
  }

  /** However large the buffer, the chunks put together are what the file holds from the handle's position on. */
  method ReadChunks(fs: Volume, file: FileHandle, bufferSize: nat, ghost t: Tree, ghost b: seq<byte>)
    returns (r: Status, out: seq<byte>)
    requires fs.Ready() && bufferSize > 0 && !file.directory && file.position == 0 && |b| == file.size
    requires Stores(fs.g, fs.Now(), file.firstCluster, file.size, ChainAt(t, file.firstCluster))
    requires Content(fs.g, fs.Now(), ChainAt(t, file.firstCluster), file.size) == b
    modifies fs.sectorBuffer, file`position
    ensures r == Ok && out == b && file.position == file.size
  {
    hide Kept, ViewOf, Content, Stores, Splice, Past, Times, ChainBytes;
    out := [];
    var buffer := new byte[bufferSize];
    var remaining: nat := file.size;
    r := Ok;
    while remaining > 0
      invariant file.position + remaining == file.size && out == b[..file.position] && r == Ok
    {
      var chunk := if remaining > bufferSize then bufferSize else remaining;
      ghost var from, o := file.position, buffer[..];
      StoresWalked(fs.g, fs.Now(), file.firstCluster, file.size, ChainAt(t, file.firstCluster));
      StoresNotPast(fs.g, fs.Now(), file.firstCluster, file.size, ChainAt(t, file.firstCluster), from, chunk);
      var bytesRead;
      r, bytesRead := Read(fs, file, buffer, chunk, ChainAt(t, file.firstCluster));
      if r != Ok {
        return;
      }
      if bytesRead == 0 {
        break;
      }
      ChunkTaken(b, from, bytesRead, o, buffer[..]);
      out := out + buffer[..bytesRead];
      remaining := remaining - bytesRead;
    }
    assert b[..|b|] == b;
  }

  lemma OpenedStores(g: Geometry, v: View, t: Tree, path: Text, d: nat, i: nat, h: nat, b: seq<byte>)
    requires Opened(g, v, t, path, d, i, h, b)
    ensures Stores(g, v, h, |b|, ChainAt(t, h)) && Content(g, v, ChainAt(t, h), |b|) == b
  {
    hide AllSlots, Shape, FileSeen, Good, TreeOf, Content, Stores, SlotIs, Opened, Safe, Housed, Accounted;
    OpenedFacts(g, v, t, path, d, i, h, b);
    SlotFacts(g, v, t, d, i, h, |b|);
    ShownContent(g, v, ChainAt(t, h), b);
  }

  lemma ShownContent(g: Geometry, v: View, ch: seq<nat>, b: seq<byte>)
    requires Shows(g, v, ch, |b|, b)
    ensures Placed(g, ch) && Fitted(g, v) && |b| <= 512 * Sectors(g, |ch|) && Content(g, v, ch, |b|) == b
  {
  }

  /** r and out are what the tree of names says about reading the path. */
  ghost predicate ReadsAs(a: Model, root: nat, path: Text, r: Status, out: seq<byte>) {
    match FileSeen(a, root, path)
    case SeenName(d, n) => r == Ok && a[d][n] == File(out)
    case q => r == RefusalOf(q)
  }

  /** rd, with its 512-byte buffer: what it puts out is what the path's file holds in the tree of names. */
  method ReadFile(fs: Volume, path: Text, ghost t: Tree) returns (r: Status, out: seq<byte>)
    requires fs.Ready() && Good(fs.g, fs.Now(), t)
    modifies fs.sectorBuffer
    ensures ReadsAs(TreeOf(fs.g, old(fs.Now()), t), fs.g.rootCluster, path, r, out)
  {
    hide Kept, ViewOf, Good, TreeOf, FileSeen, Stores, Content, Opened;
    out := [];
    var file := new FileHandle();
    ghost var b;
    r, b := OpenPath(fs, path, file, t);
    if r != Ok {
      return;
    }
    OpenedStores(fs.g, fs.Now(), t, path, file.directoryCluster, file.entryIndex, file.firstCluster, b);
    OpenedFacts(fs.g, fs.Now(), t, path, file.directoryCluster, file.entryIndex, file.firstCluster, b);
    r, out := ReadChunks(fs, file, 512, t, b);
  }
}
