/**
 * The allocation table of a FAT16 volume (fs/fat16.c:113-192): mirrored copies,
 * cluster chains, allocation and freeing.
 */
module Fat16Table {
  import opened Bytes

  const FREE: nat := 0
  const LAST: nat := 0xFFFF
  const EOC: nat := 0xFFF8
  const TABLE: nat := 0x1_0000

  type Cluster = seq<byte>
  type Entry = e: seq<byte> | |e| == 32 witness Zeros(32)

  /** Cluster numbers from 2 up to max - 1 exist; each cluster has `size` bytes, `per` directory entries. */
  datatype Geometry = Geometry(max: nat, per: nat, rootCount: nat) {
    ghost predicate Ok() {
      2 <= max <= EOC && 0 < per && per <= 65536 && 65536 % per == 0 && rootCount <= 65536
    }
    function Size(): nat { 32 * per }
  }

  predicate Distinct(s: seq<nat>) {
    forall i, j :: 0 <= i < j < |s| ==> s[i] != s[j]
  }

  predicate Follows(s: seq<nat>, i: nat, next: nat)
    requires i < |s|
  {
    if i + 1 < |s| then next == s[i + 1] else next >= EOC
  }

  /** s is an end-marked chain without repetition. */
  ghost predicate Chain(f: seq<nat>, max: nat, s: seq<nat>) {
    && |f| == TABLE && s != [] && Distinct(s)
    && forall i: nat :: i < |s| ==> 2 <= s[i] < max && s[i] < EOC && Follows(s, i, f[s[i]])
  }

  /** Cluster i of s leads to the next, the last one to the end mark. */
  predicate LinkAt(f: seq<nat>, s: seq<nat>, i: nat)
    requires i < |s| && |f| == TABLE
  {
    s[i] < TABLE && f[s[i]] == if i + 1 < |s| then s[i + 1] else LAST
  }

  /** f is f0 with the clusters of s linked into a chain. */
  ghost predicate LinkedAs(f0: seq<nat>, f: seq<nat>, s: seq<nat>) {
    && |f0| == |f| == TABLE
    && (forall i: nat :: i < |s| ==> LinkAt(f, s, i))
    && forall x: nat :: x < TABLE && x !in s ==> f[x] == f0[x]
  }

  /** f is f0 with the clusters of s free. */
  ghost predicate FreedAs(f0: seq<nat>, f: seq<nat>, s: seq<nat>) {
    |f0| == |f| == TABLE && forall x: nat :: x < TABLE ==> f[x] == if x in s then FREE else f0[x]
  }

  lemma LinkedIsChain(f0: seq<nat>, f: seq<nat>, max: nat, s: seq<nat>)
    requires LinkedAs(f0, f, s) && s != [] && Distinct(s) && forall i: nat :: i < |s| ==> 2 <= s[i] < max <= EOC
    ensures Chain(f, max, s)
  {
    forall i: nat | i < |s| ensures s[i] < EOC && Follows(s, i, f[s[i]]) {
      assert LinkAt(f, s, i);
    }
  }

  /** Linking free clusters and then freeing them restores the table. */
  lemma LinkThenFree(f0: seq<nat>, f: seq<nat>, g: seq<nat>, s: seq<nat>)
    requires LinkedAs(f0, f, s) && FreedAs(f, g, s) && forall i: nat :: i < |s| ==> s[i] < TABLE && f0[s[i]] == FREE
    ensures g == f0
  {
    forall x: nat | x < TABLE ensures g[x] == f0[x] {
      if x in s {
        var i: nat :| i < |s| && s[i] == x;
      }
    }
  }

  /** A chain none of whose entries changed is still a chain. */
  lemma ChainKept(f: seq<nat>, g: seq<nat>, max: nat, s: seq<nat>)
    requires Chain(f, max, s) && |g| == TABLE && forall x :: x in s ==> x < TABLE && g[x] == f[x]
    ensures Chain(g, max, s)
  {
    forall i: nat | i < |s| ensures Follows(s, i, g[s[i]]) {
      assert s[i] in s;
    }
  }

  // ---- how many entries are in use ----

  function InUse(f: seq<nat>, n: nat): nat
    requires n <= |f|
  {
    if n == 0 then 0 else InUse(f, n - 1) + if f[n - 1] != FREE then 1 else 0
  }

  lemma {:induction false} InUseDrops(f: seq<nat>, c: nat, n: nat)
    requires n <= |f| && c < |f|
    ensures InUse(f[c := FREE], n) == InUse(f, n) - if c < n && f[c] != FREE then 1 else 0
  {
    if n > 0 {
      InUseDrops(f, c, n - 1);
    }
  }

  // ---- how many clusters are free ----

  /** The free clusters below n; numbering starts at 2. */
  function FreeCount(f: seq<nat>, n: nat): nat
    requires n <= |f|
  {
    if n <= 2 then 0 else FreeCount(f, n - 1) + if f[n - 1] == FREE then 1 else 0
  }

  lemma {:induction false} NoneFree(f: seq<nat>, n: nat)
    requires n <= |f|
    ensures FreeCount(f, n) == 0 <==> forall x: nat :: 2 <= x < n ==> f[x] != FREE
  {
    if n > 2 {
      NoneFree(f, n - 1);
    }
  }

  /** Giving entry c the value x moves the count by the difference at c. */
  lemma {:induction false} FreeCountUpdate(f: seq<nat>, c: nat, x: nat, n: nat)
    requires n <= |f| && c < |f|
    ensures FreeCount(f[c := x], n) == FreeCount(f, n) + if !(2 <= c < n) || (x == FREE) == (f[c] == FREE) then 0
            else if x == FREE then 1 else -1
  {
    if n > 2 {
      FreeCountUpdate(f, c, x, n - 1);
    }
  }

  /** What free_chain does to any table, cyclic chains included: each entry is freed as its successor is read. */
  function FreeFrom(f: seq<nat>, c: nat): (g: seq<nat>)
    requires |f| == TABLE
    ensures |g| == TABLE
    decreases InUse(f, TABLE)
  {
    if !(2 <= c < EOC) then f
    else if f[c] >= EOC || f[c] == FREE then f[c := FREE]
    else InUseDrops(f, c, TABLE); FreeFrom(f[c := FREE], f[c])
  }

  /** On any table at all: only entries are freed, nothing else changes. */
  lemma {:induction false} FreeFromOnlyFrees(f: seq<nat>, c: nat)
    requires |f| == TABLE
    ensures forall x: nat :: x < TABLE ==> FreeFrom(f, c)[x] == f[x] || FreeFrom(f, c)[x] == FREE
    decreases InUse(f, TABLE)
  {
    if 2 <= c < EOC && !(f[c] >= EOC || f[c] == FREE) {
      InUseDrops(f, c, TABLE);
      FreeFromOnlyFrees(f[c := FREE], f[c]);
    }
  }

  /** On a proper chain exactly its clusters are freed. */
  lemma {:induction false} FreeFromChain(f0: seq<nat>, f: seq<nat>, max: nat, s: seq<nat>, i: nat)
    requires Chain(f0, max, s) && i < |s| && FreedAs(f0, f, s[..i])
    ensures FreedAs(f0, FreeFrom(f, s[i]), s)
    decreases |s| - i
  {
    hide FreeFrom, Follows;
    var c := s[i];
    ChainAt(f0, max, s, i);
    assert c !in s[..i];
    assert f[c] == f0[c];
    FreeFromStep(f, c);
    assert s[..i + 1] == s[..i] + [c];
    assert FreedAs(f0, f[c := FREE], s[..i + 1]);
    if i + 1 < |s| {
      ChainAt(f0, max, s, i + 1);
      FreeFromChain(f0, f[c := FREE], max, s, i + 1);
    } else {
      assert s[..i + 1] == s;
    }
  }

  lemma ChainAt(f: seq<nat>, max: nat, s: seq<nat>, i: nat)
    requires Chain(f, max, s) && i < |s|
    ensures 2 <= s[i] < max && s[i] < EOC && (i + 1 < |s| ==> f[s[i]] == s[i + 1] < EOC)
            && (i + 1 == |s| ==> f[s[i]] >= EOC)
  {
    assert Follows(s, i, f[s[i]]);
  }

  lemma FreeFromStep(f: seq<nat>, c: nat)
    requires |f| == TABLE && 2 <= c < EOC
    ensures FreeFrom(f, c) == if f[c] >= EOC || f[c] == FREE then f[c := FREE] else FreeFrom(f[c := FREE], f[c])
  {
  }
}
