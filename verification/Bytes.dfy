/** Bytes, little-endian fields and splices: the vocabulary of every on-disk structure. */
module Bytes {

  type byte = b: int | 0 <= b < 256

  const U32: int := 0x1_0000_0000

  /** A NUL-terminated C string, without its terminator. */
  type Text = s: seq<byte> | 0 !in s

  const SLASH: byte := 47
  const DOT: byte := 46
  const SPACE: byte := 32

  datatype Option<+T> = None | Some(value: T)

  function Min(a: int, b: int): int {
    if a < b then a else b
  }

  /** A sum as a uint32_t holds it. */
  function Wrap32(n: nat): (r: nat)
    ensures r < U32 && (n < U32 ==> r == n)
  {
    n % U32
  }

  lemma WrapAdd(n: nat, k: nat)
    ensures Wrap32(Wrap32(n) + k) == Wrap32(n + k)
  {
  }

  function Max(a: int, b: int): int {
    if a < b then b else a
  }

  function Zeros(n: nat): (s: seq<byte>)
    ensures |s| == n && forall i | 0 <= i < n :: s[i] == 0
  {
    seq(n, i => 0)
  }

  /** The two-byte field at offset o, least significant byte first. */
  function Le16(s: seq<byte>, o: nat): (v: nat)
    requires o + 2 <= |s|
    ensures v < 0x1_0000
  {
    var b0: int, b1: int := s[o], s[o + 1];
    b0 + 0x100 * b1
  }

  /** The four-byte field at offset o, least significant byte first. */
  function Le32(s: seq<byte>, o: nat): (v: nat)
    requires o + 4 <= |s|
    ensures v < U32
  {
    var b0: int, b1: int, b2: int, b3: int := s[o], s[o + 1], s[o + 2], s[o + 3];
    b0 + 0x100 * b1 + 0x1_0000 * b2 + 0x100_0000 * b3
  }

  function Enc16(v: nat): (s: seq<byte>)
    requires v < 0x1_0000
    ensures |s| == 2
  {
    [v % 0x100, v / 0x100]
  }

  function Enc32(v: nat): (s: seq<byte>)
    requires v < U32
    ensures |s| == 4
  {
    [v % 0x100, (v / 0x100) % 0x100, (v / 0x1_0000) % 0x100, v / 0x100_0000]
  }

  /** s with t laid over it from offset o on. */
  function Splice<T>(s: seq<T>, o: nat, t: seq<T>): (r: seq<T>)
    requires o + |t| <= |s|
    ensures |r| == |s|
    ensures forall i | 0 <= i < |s| :: r[i] == if o <= i < o + |t| then t[i - o] else s[i]
  {
    s[..o] + t + s[o + |t|..]
  }

  lemma Enc32Digits(v: nat)
    requires v < U32
    ensures v % 0x100 + 0x100 * ((v / 0x100) % 0x100) + 0x1_0000 * ((v / 0x1_0000) % 0x100)
         + 0x100_0000 * (v / 0x100_0000) == v
  {
    assert (v / 0x100) / 0x100 == v / 0x1_0000;
    assert (v / 0x1_0000) / 0x100 == v / 0x100_0000;
  }

  /** Writing a 32-bit field and reading it back. */
  lemma PutGet32(s: seq<byte>, o: nat, v: nat)
    requires o + 4 <= |s| && v < U32
    ensures Le32(Splice(s, o, Enc32(v)), o) == v
  {
    var r := Splice(s, o, Enc32(v));
    assert r[o] == Enc32(v)[0] && r[o + 1] == Enc32(v)[1] && r[o + 2] == Enc32(v)[2] && r[o + 3] == Enc32(v)[3];
    Enc32Digits(v);
  }

  lemma PutGet16(s: seq<byte>, o: nat, v: nat)
    requires o + 2 <= |s| && v < 0x1_0000
    ensures Le16(Splice(s, o, Enc16(v)), o) == v
  {
    var r := Splice(s, o, Enc16(v));
    assert r[o] == Enc16(v)[0] && r[o + 1] == Enc16(v)[1];
  }

  /** A splice leaves the fields it does not overlap alone. */
  lemma SpliceKeeps32(s: seq<byte>, o: nat, t: seq<byte>, p: nat)
    requires o + |t| <= |s| && p + 4 <= |s|
    requires p + 4 <= o || o + |t| <= p
    ensures Le32(Splice(s, o, t), p) == Le32(s, p)
  {
  }

  /** Splicing into a window of s is splicing into s. */
  lemma SpliceWindow<T>(s: seq<T>, o: nat, n: nat, p: nat, t: seq<T>)
    requires o + n <= |s| && p + |t| <= n
    ensures Splice(s, o, Splice(s[o..o + n], p, t)) == Splice(s, o + p, t)
  {
  }

  /** Two adjacent splices are one. */
  lemma SpliceAdjacent<T>(s: seq<T>, o: nat, t: seq<T>, u: seq<T>)
    requires o + |t| + |u| <= |s|
    ensures Splice(Splice(s, o, t), o + |t|, u) == Splice(s, o, t + u)
  {
  }

  /** Copying one element more. */
  lemma SpliceNext<T>(s: seq<T>, o: nat, t: seq<T>, from: nat, n: nat)
    requires o + n < |s| && from + n < |t|
    ensures Splice(s, o, t[from..from + n])[o + n := t[from + n]] == Splice(s, o, t[from..from + n + 1])
    ensures Splice(s, o, t[from..from]) == s
  {
    assert t[from..from + n + 1] == t[from..from + n] + [t[from + n]];
  }

  lemma SpliceNone<T>(s: seq<T>, o: nat)
    requires o <= |s|
    ensures Splice(s, o, []) == s
  {
  }

  /** The source's write_u32: four byte stores into a buffer. */
  method WriteU32(p: array<byte>, o: nat, value: nat)
    requires o + 4 <= p.Length && value < U32
    modifies p
    ensures p[..] == Splice(old(p[..]), o, Enc32(value))
  {
    p[o] := value % 0x100;
    p[o + 1] := (value / 0x100) % 0x100;
    p[o + 2] := (value / 0x1_0000) % 0x100;
    p[o + 3] := (value / 0x100_0000) % 0x100;
  }

  /** The source's write_u16. */
  method WriteU16(p: array<byte>, o: nat, value: nat)
    requires o + 2 <= p.Length && value < 0x1_0000
    modifies p
    ensures p[..] == Splice(old(p[..]), o, Enc16(value))
  {
    p[o] := value % 0x100;
    p[o + 1] := (value / 0x100) % 0x100;
  }
}
