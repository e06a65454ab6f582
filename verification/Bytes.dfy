/** Byte sequences, little-endian words and fixed-size disk blocks. */
module Bytes {

  type byte = x: int | 0 <= x < 256

  const BLOCK_SIZE: nat := 1024

  /** One EXT2 block of the 1 KiB size the image builder produces. */
  type Block = b: seq<byte> | |b| == 1024 witness Zeros(1024)

  const ZERO_BLOCK: Block := Zeros(1024)

  function Zeros(n: nat): (z: seq<byte>)
    ensures |z| == n
    ensures forall k :: 0 <= k < n ==> z[k] == 0
  {
    seq(n, i => 0)
  }

  function U16(b: seq<byte>, off: nat): nat
    requires off + 2 <= |b|
  {
    b[off] as int + 256 * (b[off + 1] as int)
  }

  function U32(b: seq<byte>, off: nat): (r: nat)
    requires off + 4 <= |b|
    ensures r < 0x1_0000_0000
  {
    b[off] as int + 0x100 * (b[off + 1] as int) + 0x1_0000 * (b[off + 2] as int) + 0x100_0000 * (b[off + 3] as int)
  }

  function Enc16(x: nat): (r: seq<byte>)
    requires x < 0x1_0000
    ensures |r| == 2 && U16(r, 0) == x
  {
    [x % 256, x / 256]
  }

  lemma FourBytes(x: nat)
    requires x < 0x1_0000_0000
    ensures x == x % 0x100 + 0x100 * (x / 0x100 % 0x100) + 0x1_0000 * (x / 0x1_0000 % 0x100)
            + 0x100_0000 * (x / 0x100_0000)
    ensures x / 0x100_0000 < 0x100
  {
    var p := x / 0x100;
    var q := p / 0x100;
    assert q == x / 0x1_0000;
    assert q / 0x100 == x / 0x100_0000;
  }

  function Enc32(x: nat): (r: seq<byte>)
    requires x < 0x1_0000_0000
    ensures |r| == 4 && U32(r, 0) == x
  {
    FourBytes(x);
    [x % 0x100, x / 0x100 % 0x100, x / 0x1_0000 % 0x100, x / 0x100_0000]
  }

  /** memcpy of `d` over `b` at `off`. */
  function Put(b: seq<byte>, off: nat, d: seq<byte>): (r: seq<byte>)
    requires off + |d| <= |b|
    ensures |r| == |b|
    ensures forall k :: 0 <= k < |b| ==> r[k] == if off <= k < off + |d| then d[k - off] else b[k]
  {
    b[..off] + d + b[off + |d|..]
  }

  /** The four bytes of a word determine it. */
  lemma U32Bytes(b: seq<byte>, off: nat, c: seq<byte>, coff: nat)
    requires off + 4 <= |b| && coff + 4 <= |c|
    requires b[off..off + 4] == c[coff..coff + 4]
    ensures U32(b, off) == U32(c, coff)
  {
    var x, y := b[off..off + 4], c[coff..coff + 4];
    assert x[0] == y[0] && x[1] == y[1] && x[2] == y[2] && x[3] == y[3];
  }

  lemma PutU32(b: seq<byte>, off: nat, x: nat, at: nat)
    requires off + 4 <= |b| && at + 4 <= |b| && x < 0x1_0000_0000
    requires at == off || at + 4 <= off || off + 4 <= at
    ensures U32(Put(b, off, Enc32(x)), at) == if at == off then x else U32(b, at)
  {
    var r := Put(b, off, Enc32(x));
    if at == off {
      U32Bytes(r, at, Enc32(x), 0);
    } else {
      U32Bytes(r, at, b, at);
    }
  }

  // ---- sequence facts used throughout ----

  lemma SubSlice<T>(b: seq<T>, c: seq<T>, off: nat, n: nat, lo: nat, hi: nat)
    requires off + n <= |b| && off + n <= |c| && b[off..off + n] == c[off..off + n] && lo <= hi <= n
    ensures b[off + lo..off + hi] == c[off + lo..off + hi]
  {
    var p, q := b[off..off + n], c[off..off + n];
    var x, y := b[off + lo..off + hi], c[off + lo..off + hi];
    forall k | 0 <= k < |x| ensures x[k] == y[k] {
      assert x[k] == p[lo + k] && y[k] == q[lo + k];
    }
  }

  lemma PutSlice(b: seq<byte>, off: nat, d: seq<byte>)
    requires off + |d| <= |b|
    ensures Put(b, off, d)[off..off + |d|] == d
  {
  }

  lemma PutOutside(b: seq<byte>, off: nat, d: seq<byte>, lo: nat, hi: nat)
    requires off + |d| <= |b| && lo <= hi <= |b| && (hi <= off || off + |d| <= lo)
    ensures Put(b, off, d)[lo..hi] == b[lo..hi]
  {
  }

  lemma Cut<T>(s: seq<T>, j: nat)
    requires j < |s|
    ensures s == s[..j] + [s[j]] + s[j + 1..]
  {
  }

  lemma Assoc<T>(a: seq<T>, b: seq<T>, c: seq<T>)
    ensures a + (b + c) == a + b + c
  {
  }
}
