/**
 * Symbolic links (fs/ext2/write.c:322-426): targets of at most 60 bytes are
 * packed into the inode's 15 pointer words, longer ones go into data blocks.
 */
module Ext2Symlink {
  import opened Bytes
  import opened Ext2Refs
  import opened Ext2Volume
  import opened Ext2Sound
  import opened Ext2Blocks
  import opened Ext2Data
  import opened Ext2DirBlock
  import opened Ext2DirScan
  import opened Ext2Dir
  import opened Ext2Tree
  import opened Ext2Names
  import opened Ext2Write
  import opened Ext2Unlink
  import opened Ext2File

  const MAX_INLINE: nat := 60
  const MAX_PATH: nat := 256

  // ---- text in pointer words ----

  /** memcpy of the target into i_block. */
  function Pack(target: seq<byte>): Pointers
    requires |target| <= MAX_INLINE
  {
    var b := target + Zeros(MAX_INLINE - |target|);
    seq(15, k requires 0 <= k < 15 => U32(b, 4 * k))
  }

  /** The bytes of i_block. */
  function Unpack(ptr: Pointers): (b: seq<byte>)
    ensures |b| == MAX_INLINE
  {
    seq(MAX_INLINE, i requires 0 <= i < MAX_INLINE => Enc32(ptr[i / 4])[i % 4])
  }

  lemma WordByte(b: seq<byte>, off: nat, j: nat)
    requires off + 4 <= |b| && j < 4
    ensures Enc32(U32(b, off))[j] == b[off + j]
  {
    var x := U32(b, off);
    var b0: int, b1: int, b2: int, b3: int := b[off], b[off + 1], b[off + 2], b[off + 3];
    assert x / 0x100 == b1 + 0x100 * b2 + 0x1_0000 * b3;
    assert x / 0x1_0000 == b2 + 0x100 * b3;
    assert x / 0x100_0000 == b3;
  }

  /** What is packed can be read back. */
  lemma PackRoundTrip(target: seq<byte>)
    requires |target| <= MAX_INLINE
    ensures Unpack(Pack(target))[..|target|] == target
  {
    var b := target + Zeros(MAX_INLINE - |target|);
    forall i | 0 <= i < |target| ensures Unpack(Pack(target))[i] == target[i] {
      WordByte(b, 4 * (i / 4), i % 4);
    }
  }

  /** The text of a link, whichever way it is stored. */
  function LinkText(n: Inode, blocks: seq<Block>): seq<byte>
    requires IsFast(n) ==> n.size <= MAX_INLINE
  {
    if n.sectors == 0 && IsLnk(n) then Unpack(n.ptr)[..n.size] else FileData(n, blocks)
  }

  /** ext2_readlink (fs/ext2/write.c:403-426): at most bufsize bytes, not terminated. */
  method ReadLink(vol: Volume, p: Path, bufsize: nat) returns (rc: Errno, text: seq<byte>)
    requires Mounted(vol) && PathOk(p)
    requires forall i: nat :: i < |vol.inodes| && IsFast(vol.inodes[i]) ==> vol.inodes[i].size <= MAX_INLINE
    ensures var f := Walk(Namespace(vol), ROOT, p);
            && (rc == ENOENT <==> f == Nowhere)
            && (f.At? ==> f.ino < |vol.inodes| && (rc == EINVAL <==> !IsLnk(vol.inodes[f.ino])))
            && (f.At? && IsLnk(vol.inodes[f.ino]) ==>
                  rc == Ok && var all := LinkText(vol.inodes[f.ino], vol.blocks);
                    text == if |all| < bufsize then all else all[..bufsize])
  {
    hide Items, Intact, Walk, Ref, Unpack, Namespace;
    text := [];
    var found, i := PathToInode(vol, p);
    if !found {
      return ENOENT, [];
    }
    var read, n := vol.ReadInode(i);
    if !IsLnk(n) {
      return EINVAL, [];
    }
    var count := if n.size < bufsize then n.size else bufsize;
    if n.sectors == 0 {
      text := Unpack(n.ptr)[..count];
    } else {
      RegReadable(vol, i);
      var ok;
      ok, text := ReadData(vol, n, count);
      FileBytesPrefix(n, vol.blocks, count);
    }
    return Ok, text;
  }

  lemma FileBytesPrefix(n: Inode, blocks: seq<Block>, count: nat)
    requires count <= n.size
    ensures FileBytes(n, blocks, count) == FileData(n, blocks)[..count]
  {
    hide FileByte;
  }

  // ---- a new inode, before it has a name ----

  /** Inode i of u is new since v: stored, numbered, not yet named. */
  ghost predicate Unnamed(v: Vol, u: Vol, meta: set<nat>, first: nat, i: nat) {
    && Intact(v, meta, first) && 0 < i < |v.inodes| && i !in v.iused && v.inodes[i] == ZERO_INODE && Shapely(v)
    && Fs(u, meta, first) && Tidy(u) && Shapely(u) && KeepsOthers(v, u, i) && u.iused == v.iused + iset{i}
    && !IsDir(u.inodes[i])
    && |TreeOf(v).kinds| == |v.inodes| && |TreeOf(v).links| == |v.inodes|
    && TreeOf(u) == TreeOf(v).(kinds := TreeOf(v).kinds[i := Other], links := TreeOf(v).links[i := 1])
  }

  lemma UnnamedFrom(v: Vol, u: Vol, meta: set<nat>, first: nat, i: nat)
    requires Intact(v, meta, first) && 0 < i < |v.inodes| && i !in v.iused
    requires Sound(u, meta, first) && KeepsOthers(v, u, i) && u.iused == v.iused + iset{i}
    requires KindOf(u.inodes[i]) == Other && u.inodes[i].links == 1
    ensures Unnamed(v, u, meta, first, i)
  {
    hide Sound, DirShape, Names, Linked, KeepsOthers;
    FreshInode(v, meta, first, i);
    FsKept(v, u, meta, first, i);
    FsShapely(v, meta, first);
    FsShapely(u, meta, first);
    TreeChange(v, u, i);
    assert i !in TreeOf(v).names && TreeOf(v).names - {i} == TreeOf(v).names;
    TidyKept(v, u, i);
  }

  /** Taking the new inode back: the volume is as before, exactly if freeing it was harmless. */
  lemma UnnamedBack(v: Vol, u: Vol, x: Vol, meta: set<nat>, first: nat, i: nat)
    requires Unnamed(v, u, meta, first, i) && OnlyLeaked(u, x, meta, first)
    ensures i < |x.inodes| && x.inodes[i] == u.inodes[i] && i in x.iused && Fs(x, meta, first)
    ensures var w := Retired(x, i);
            && w.inodes == v.inodes && w.iused == v.iused && KeepsOthers(v, w, i) && Shapely(w) && Shapely(v)
            && TreeOf(w) == TreeOf(v)
            && (Intact(w, meta, first) <==> Harmless(x, meta, first, i))
  {
    hide Sound, DirShape, Names, Linked, KeepsOthers, Harmless, RawWords;
    assert KeepsOthers(u, x, |u.inodes|) && Fs(x, meta, first);
    LeakedKeeps(u, x, meta, first);
    KeepsSame(v, u, i);
    KeepsSame(u, x, |u.inodes|);
    var w := Retired(x, i);
    RetireIff(x, meta, first, i);
    KeepsThree(v, u, x, w, i);
    SameInodes(v, w, i);
    TidyKept(v, w, i);
    TreeChange(v, w, i);
    ZeroRefs(v.blocks);
    assert TreeOf(v).kinds[i] == KindOf(v.inodes[i]) && TreeOf(v).links[i] == 0;
    assert i !in TreeOf(v).names && TreeOf(v).names - {i} == TreeOf(v).names;
    assert TreeOf(w) == TreeOf(v);
  }

  lemma KeepsSame(u: Vol, x: Vol, k: nat)
    requires KeepsOthers(u, x, k)
    ensures |x.inodes| == |u.inodes|
  {
  }

  lemma SameInodes(v: Vol, w: Vol, i: nat)
    requires KeepsOthers(v, w, i) && i < |v.inodes| && w.inodes[i] == v.inodes[i]
    ensures w.inodes == v.inodes
  {
    hide Body;
    forall j: nat | j < |v.inodes| ensures w.inodes[j] == v.inodes[j] {
      if j != i { assert KeepsInode(v, w, j); }
    }
  }

  // ---- creating a link ----

  /** The link has its name: the tree of a created file, and the text reads back. */
  ghost predicate LinkCreated(v: Vol, w: Vol, meta: set<nat>, first: nat, d: nat, leaf: Name, i: nat,
      target: seq<byte>) {
    && Outcome(v, w, meta, first, Ok, d, leaf, i, false) && Intact(w, meta, first)
    && i < |w.inodes| && IsLnk(w.inodes[i]) && w.inodes[i].links == 1
    && StoredAs(w.inodes[i], target) && LinkText(w.inodes[i], w.blocks) == target
  }

  /** A short target is in the inode itself, a long one in blocks. */
  predicate StoredAs(n: Inode, target: seq<byte>) {
    if |target| <= MAX_INLINE then n == FastInode(target) else !IsFast(n)
  }

  /**
   * The name could not be inserted and the new inode was taken back, x being the
   * volume just before: every inode is as it was, and the volume is intact
   * exactly if freeing the text of the link hurt nobody.
   */
  ghost predicate LinkUndone(v: Vol, x: Vol, w: Vol, meta: set<nat>, first: nat, i: nat) {
    && i < |x.inodes| && w == Retired(x, i) && Fs(x, meta, first)
    && w.inodes == v.inodes && w.iused == v.iused && KeepsOthers(v, w, i) && Shapely(v) && Shapely(w)
    && TreeOf(w) == TreeOf(v)
    && (Intact(w, meta, first) <==> Harmless(x, meta, first, i))
    && (Plain(x.inodes[i]) ==> OnlyLeaked(v, w, meta, first))
  }

  /** Undoing a link stored in blocks leaks at most the block the insertion took. */
  lemma PlainUndone(v: Vol, u: Vol, x: Vol, meta: set<nat>, first: nat, i: nat)
    requires Unnamed(v, u, meta, first, i) && OnlyLeaked(u, x, meta, first) && i < |u.inodes| && i < |x.inodes|
             && Plain(x.inodes[i])
    requires u.used == v.used + References(u.inodes[i], u.blocks) && v.used !! References(u.inodes[i], u.blocks)
    requires Retired(x, i).inodes == v.inodes && Retired(x, i).iused == v.iused && KeepsOthers(v, Retired(x, i), i)
    ensures OnlyLeaked(v, Retired(x, i), meta, first)
  {
    hide Intact, Fs, Tidy, Shapely, Plain, RawWords, References, KeepsOthers, KeepsInode, Ref, TreeOf;
    var w := Retired(x, i);
    LeakedKeeps(u, x, meta, first);
    LeakedSound(u, x, meta, first);
    PlainHarmless(x, meta, first, i);
    RetireStep(x, meta, first, i);
    LeakedRefs(u, x, meta, first, i);
    var mine := References(u.inodes[i], u.blocks);
    assert w.used == x.used - mine;
    if x.used == u.used {
      assert w.used == v.used;
    } else {
      var b: nat :| b !in u.used && x.used == u.used + iset{b};
      assert w.used == v.used + iset{b};
    }
    UnnamedStep(v, w, meta, first, i);
  }

  lemma LeakedSound(u: Vol, x: Vol, meta: set<nat>, first: nat)
    requires OnlyLeaked(u, x, meta, first)
    ensures Sound(x, meta, first) && Fs(x, meta, first)
  {
    hide Sound, KeepsOthers, DirShape;
  }

  lemma LeakedRefs(u: Vol, x: Vol, meta: set<nat>, first: nat, i: nat)
    requires OnlyLeaked(u, x, meta, first) && i < |u.inodes|
    ensures i < |x.inodes| && References(x.inodes[i], x.blocks) == References(u.inodes[i], u.blocks)
  {
    hide Fs, Ref, Body;
    assert KeepsInode(u, x, i);
    SameReferences(u.inodes[i], u.blocks, x.blocks);
  }

  /** fs/ext2/write.c:371-376: name the new link, or take it back. */
  method PlaceLink(vol: Volume, ghost v: Vol, d: nat, leaf: Name, i: nat, n: Inode, ghost target: seq<byte>)
    returns (rc: Errno, ghost x: Vol)
    requires vol.Valid() && Unnamed(v, vol.View(), vol.meta, vol.geo.first, i) && n == vol.inodes[i]
    requires 1 <= d <= vol.geo.inodes && 1 <= |leaf| <= 255 && Proper(leaf)
             && (d in TreeOf(v).names ==> leaf !in TreeOf(v).names[d])
    requires IsLnk(n) && n.links == 1 && StoredAs(n, target) && LinkText(n, vol.blocks) == target
    requires Plain(n) ==> var mine := References(n, vol.blocks); vol.View().used == v.used + mine && v.used !! mine
    modifies vol
    ensures vol.Valid() && vol.Books() == old(vol.Books())
    ensures rc == Ok ==> LinkCreated(v, vol.View(), vol.meta, vol.geo.first, d, leaf, i, target)
    ensures rc != Ok ==> rc == ENOSPC && LinkUndone(v, x, vol.View(), vol.meta, vol.geo.first, i) && x.inodes[i] == n
    ensures rc == Ok <==> Takes(v, d, leaf, BlocksLeft(vol.geo, vol.Books(), old(vol.View()).used))
  {
    hide Items, Drifts, SuperDrift, Fs, Tidy, Linked, Intact, Shapely, Names, DirShape, KeepsOthers, OnlyLeaked,
         DirChanged, KeepsAllBut,
      LinkText, Plain, References, RawWords, Harmless, StoredAs, Created, TreeOf, Outcome, BlocksLeft, Takes;
    ghost var u, meta, first := vol.View(), vol.meta, vol.geo.first;
    UnnamedNames(v, u, meta, first, d, leaf, i);
    TakesAcross(v, u, i, d, leaf, BlocksLeft(vol.geo, vol.Books(), u.used));
    var placed := DirInsert(vol, d, leaf, i, 7);
    x := vol.View();
    if !placed {
      UnnamedBack(v, u, x, meta, first, i);
      if Plain(n) {
        PlainUndone(v, u, x, meta, first, i);
      }
      Retire(vol, i, n, false);
      return ENOSPC, x;
    }
    LinkNamed(v, u, x, meta, first, d, leaf, i, target);
    return Ok, x;
  }

  lemma UnnamedNames(v: Vol, u: Vol, meta: set<nat>, first: nat, d: nat, leaf: Name, i: nat)
    requires Unnamed(v, u, meta, first, i) && d < |u.inodes| && (d in TreeOf(v).names ==> leaf !in TreeOf(v).names[d])
    ensures Fs(u, meta, first) && |u.inodes| < 0x1_0000_0000 && 0 < i < |u.inodes|
    ensures IsDir(u.inodes[d]) ==> DirShape(u.inodes[d], u.blocks) && leaf !in Names(u, d)
  {
    hide Intact, Sound, DirShape, Names, KeepsInode;
    NamesStill(v, u, meta, first, d, leaf);
  }

  lemma LinkNamed(v: Vol, u: Vol, x: Vol, meta: set<nat>, first: nat, d: nat, leaf: Name, i: nat, target: seq<byte>)
    requires Unnamed(v, u, meta, first, i) && Proper(leaf)
    requires d < |u.inodes| && IsDir(u.inodes[d]) && DirShape(u.inodes[d], u.blocks) && leaf !in Names(u, d)
    requires DirChanged(u, x, meta, first, d, Names(u, d)[leaf := i])
    requires i < |u.inodes| && IsLnk(u.inodes[i]) && u.inodes[i].links == 1 && StoredAs(u.inodes[i], target)
    requires LinkText(u.inodes[i], u.blocks) == target
    ensures LinkCreated(v, x, meta, first, d, leaf, i, target)
  {
    hide Fs, Tidy, Linked, Intact, Shapely, Names, DirShape, KeepsOthers, DirChanged, KeepsAllBut, Created, Unpack,
         FileData, StoredAs;
    NamedStep(v, u, x, meta, first, d, leaf, i);
    FreshInode(v, meta, first, i);
    assert d != i;
    DirChangedKeeps(u, x, meta, first, d, Names(u, d)[leaf := i]);
    KeptReads(u, x, d, i);
    NamedBounds(v, u, x, d, i);
  }

  lemma DirChangedKeeps(u: Vol, x: Vol, meta: set<nat>, first: nat, d: nat, m: map<Name, nat>)
    requires DirChanged(u, x, meta, first, d, m)
    ensures KeepsOthers(u, x, d)
  {
    hide Fs, KeepsOthers, DirShape, Names;
  }

  lemma NamedBounds(v: Vol, u: Vol, x: Vol, d: nat, i: nat)
    requires KeepsOthers(v, u, i) && KeepsOthers(u, x, d)
    ensures |x.inodes| == |u.inodes| == |v.inodes|
  {
  }

  function FastInode(target: seq<byte>): Inode
    requires |target| <= MAX_INLINE
  {
    Inode(LINK_MODE, 1, |target|, 0, Pack(target))
  }

  lemma FastStep(v: Vol, meta: set<nat>, first: nat, i: nat, target: seq<byte>)
    requires Intact(v, meta, first) && 0 < i < |v.inodes| && i !in v.iused && |target| <= MAX_INLINE
    ensures var n := FastInode(target); var u := Numbered(v, i, n);
            && Unnamed(v, u, meta, first, i) && u.inodes[i] == n && IsFast(n)
            && LinkText(n, u.blocks) == target && u.used == v.used + References(n, u.blocks)
            && v.used !! References(n, u.blocks)
  {
    hide Intact, LinkText, References, Pack, Sound, KeepsOthers, Unnamed, NoRefs, Numbered;
    var n := FastInode(target);
    FastText(v.blocks, target);
    NumberedLink(v, meta, first, i, n);
    NumberedIs(v, i, n);
    UnnamedFrom(v, Numbered(v, i, n), meta, first, i);
  }

  /** A fast link reads back as its target. */
  lemma FastText(blocks: seq<Block>, target: seq<byte>)
    requires |target| <= MAX_INLINE
    ensures IsFast(FastInode(target)) && LinkText(FastInode(target), blocks) == target
            && KindOf(FastInode(target)) == Other
  {
    PackRoundTrip(target);
  }

  /** A link inode that refers to nothing can be stored under a fresh number. */
  lemma NumberedLink(v: Vol, meta: set<nat>, first: nat, i: nat, n: Inode)
    requires Intact(v, meta, first) && 0 < i < |v.inodes| && i !in v.iused && n.mode == LINK_MODE && n.links == 1
             && n.sectors == 0
    ensures NoRefs(n, v.blocks) && References(n, v.blocks) == iset{} && IsFast(n)
    ensures var u := Numbered(v, i, n);
            Sound(u, meta, first) && KeepsOthers(v, u, i) && u.used == v.used && u.blocks == v.blocks
            && u.iused == v.iused + iset{i}
  {
    FastHasNoRefs(n, v.blocks);
    assert References(n, v.blocks) == iset{} by { hide Ref; }
    hide Intact, Ref, References, NoRefs, Shapely, TreeOf, KeepsOthers, Tidy, Fs;
    NumberedStep(v, meta, first, i, n);
    FsShapely(Numbered(v, i, n), meta, first);
  }

  /** The target of a symlink fits: in the inode, or in blocks that are left, with room for the name after that. */
  ghost predicate LinkFits(v: Vol, geo: Geometry, books: Ledger, d: nat, leaf: Name, size: nat) {
    var left, n := BlocksLeft(geo, books, v.used), if size <= MAX_INLINE then 0 else BlocksFor(size);
    n <= MAX_BLOCKS && Spent(n) <= left && Takes(v, d, leaf, left - Spent(n))
  }

  /** fs/ext2/write.c:352-376 for a target that fits in the inode */
  method MakeFast(vol: Volume, ghost v: Vol, d: nat, leaf: Name, i: nat, target: seq<byte>)
    returns (rc: Errno, ghost x: Vol)
    requires vol.Valid() && Intact(v, vol.meta, vol.geo.first) && Shapely(v) && |target| <= MAX_INLINE
    requires 0 < i < |v.inodes| && i !in v.iused && vol.View() == v.(iused := v.iused + iset{i})
    requires 1 <= d <= vol.geo.inodes && 1 <= |leaf| <= 255 && Proper(leaf)
             && (d in TreeOf(v).names ==> leaf !in TreeOf(v).names[d])
    modifies vol
    ensures vol.Valid() && vol.Books() == old(vol.Books())
    ensures rc == Ok ==> LinkCreated(v, vol.View(), vol.meta, vol.geo.first, d, leaf, i, target)
    ensures rc != Ok ==>
              rc == ENOSPC && LinkUndone(v, x, vol.View(), vol.meta, vol.geo.first, i)
              && x.inodes[i] == FastInode(target)
    ensures rc == Ok <==> LinkFits(v, vol.geo, vol.Books(), d, leaf, |target|)
  {
    hide Items, Drifts, SuperDrift, Intact, Shapely, LinkCreated, LinkUndone, Unnamed, References, LinkText, TreeOf,
         Plain, Pack, BlocksLeft, Takes;
    var n := FastInode(target);
    FastStep(v, vol.meta, vol.geo.first, i, target);
    var stored := vol.WriteInode(i, n);
    assert vol.View() == Numbered(v, i, n);
    rc, x := PlaceLink(vol, v, d, leaf, i, n, target);
  }

  const LONG_INODE := Inode(LINK_MODE, 1, 0, 0, NO_POINTERS)

  lemma LongStart(v: Vol, meta: set<nat>, first: nat, i: nat, size: nat)
    requires Intact(v, meta, first) && 0 < i < |v.inodes| && i !in v.iused
    ensures var n := LONG_INODE.(size := size); var u := Numbered(v, i, n);
            && Sound(u, meta, first) && KeepsOthers(v, u, i) && Plain(n) && NoRefs(n, v.blocks) && u.used == v.used
  {
    hide Intact, Sound, KeepsOthers, NoRefs, References, Plain, Numbered;
    var n := LONG_INODE.(size := size);
    LongPlain(size);
    NumberedLink(v, meta, first, i, n);
  }

  lemma LongPlain(size: nat)
    ensures Plain(LONG_INODE.(size := size)) && IsFast(LONG_INODE.(size := size))
  {
  }

  /** The blocks are written: the inode can be named. */
  lemma LongDone(v: Vol, a: Vol, b: Vol, meta: set<nat>, first: nat, i: nat, r: WriteResult)
    requires Intact(v, meta, first) && 0 < i < |v.inodes| && i !in v.iused && a.used == v.used
    requires KeepsOthers(v, a, i) && Stopped(a, b, i, r) && Sound(b, meta, first) && Plain(b.inodes[i])
    requires b.iused == v.iused + iset{i} && b.inodes[i].mode == LINK_MODE && b.inodes[i].links == 1
    ensures Unnamed(v, b, meta, first, i)
    ensures b.used == v.used + References(b.inodes[i], b.blocks) + Leaked(r)
    ensures v.used !! References(b.inodes[i], b.blocks) && v.used !! Leaked(r)
            && References(b.inodes[i], b.blocks) !! Leaked(r)
  {
    hide Intact, Sound, Ref, References, KeepsOthers, Plain, Unnamed;
    KeepsTransitive(v, a, b, i);
    UnnamedFrom(v, b, meta, first, i);
  }

  /** The blocks could not all be written: everything wired in is given back. */
  lemma LongFailed(v: Vol, b: Vol, meta: set<nat>, first: nat, i: nat, r: WriteResult)
    requires Unnamed(v, b, meta, first, i) && i < |b.inodes| && Plain(b.inodes[i])
    requires b.used == v.used + References(b.inodes[i], b.blocks) + Leaked(r)
    requires v.used !! References(b.inodes[i], b.blocks) && v.used !! Leaked(r)
             && References(b.inodes[i], b.blocks) !! Leaked(r)
    ensures OnlyLeaked(v, Retired(b, i), meta, first)
  {
    hide Intact, Fs, Tidy, Shapely, Plain, RawWords, References, KeepsOthers, KeepsInode, Ref, TreeOf;
    var w := Retired(b, i);
    RetireStep(b, meta, first, i);
    KeepsTransitive(v, b, w, i);
    assert w.used == v.used + Leaked(r);
    assert w.iused == v.iused;
    UnnamedStep(v, w, meta, first, i);
  }

  /** fs/ext2/write.c:356-376 for a target that needs data blocks */
  method MakeLong(vol: Volume, ghost v: Vol, d: nat, leaf: Name, i: nat, target: seq<byte>)
    returns (rc: Errno, ghost x: Vol)
    requires vol.Valid() && Intact(v, vol.meta, vol.geo.first) && Shapely(v) && |target| > MAX_INLINE
    requires 0 < i < |v.inodes| && i !in v.iused && vol.View() == v.(iused := v.iused + iset{i})
    requires 1 <= d <= vol.geo.inodes && 1 <= |leaf| <= 255 && Proper(leaf)
             && (d in TreeOf(v).names ==> leaf !in TreeOf(v).names[d])
    modifies vol
    ensures vol.Valid() && vol.Books() == old(vol.Books())
    ensures rc == Ok ==> LinkCreated(v, vol.View(), vol.meta, vol.geo.first, d, leaf, i, target)
    ensures rc != Ok ==> rc == ENOSPC && OnlyLeaked(v, vol.View(), vol.meta, vol.geo.first)
    ensures rc == Ok <==> LinkFits(v, vol.geo, vol.Books(), d, leaf, |target|)
  {
    hide Items, Drifts, SuperDrift, Intact, Shapely, LinkCreated, Unnamed, References, TreeOf, Plain, Sound, NoRefs,
         KeepsOthers, Stopped, OnlyLeaked, RawWords, FileData, Emptied,
      BlocksLeft, Takes;
    ghost var meta, first := vol.meta, vol.geo.first;
    var n := LONG_INODE.(size := |target|);
    LongStart(v, meta, first, i, |target|);
    assert Over(vol.View(), i, n) == Numbered(v, i, n);
    var r, n1 := WriteDataBlocks(vol, i, n, target);
    ghost var b := Over(vol.View(), i, n1);
    LongDone(v, Numbered(v, i, n), b, meta, first, i, r);
    if !r.Written? {
      LongFailed(v, b, meta, first, i, r);
      var n2 := FreeAllBlocks(vol, n1);
      vol.FreeInode(i, false);
      assert vol.View() == Retired(b, i);
      return ENOSPC, b;
    }
    assert n1 == n1.(size := |target|);
    assert IsLnk(n1) && !IsFast(n1) && LinkText(n1, vol.blocks) == target;
    var stored := vol.WriteInode(i, n1);
    assert vol.View() == b;
    rc, x := PlaceLink(vol, v, d, leaf, i, n1, target);
    if rc != Ok {
      UndoneLeaked(v, x, vol.View(), meta, first, i);
    }
  }

  lemma UndoneLeaked(v: Vol, x: Vol, w: Vol, meta: set<nat>, first: nat, i: nat)
    requires LinkUndone(v, x, w, meta, first, i) && i < |x.inodes| && Plain(x.inodes[i])
    ensures OnlyLeaked(v, w, meta, first)
  {
    hide Intact, Shapely, Plain, OnlyLeaked, KeepsOthers, TreeOf, Harmless, RawWords;
  }

  // ---- by path ----

  /** Which error ext2_symlink reports before it takes anything (fs/ext2/write.c:325-337). */
  ghost function SymlinkCode(t: Tree, target: seq<byte>, p: Path): Errno {
    if target == [] then EINVAL
    else if |target| >= MAX_PATH then ENAMETOOLONG
    else if ParentOf(t, p) == Nowhere then ENOENT
    else if Target(t, p).At? then EEXIST
    else Ok
  }

  /** How ext2_symlink can end once its arguments are accepted. */
  ghost predicate LinkOutcome(t: Tree, v: Vol, x: Vol, w: Vol, meta: set<nat>, first: nat, target: seq<byte>, p: Path,
      i: nat, rc: Errno) {
    && ParentOf(t, p).At?
    && (rc == Ok || rc == ENOSPC)
    && (rc == Ok ==> LinkCreated(v, w, meta, first, ParentOf(t, p).ino, Leaf(p), i, target))
    && (rc == ENOSPC ==>
          || OnlyLeaked(v, w, meta, first)
          || (LinkUndone(v, x, w, meta, first, i) && |target| <= MAX_INLINE && x.inodes[i] == FastInode(target)))
  }

  /** ext2_symlink (fs/ext2/write.c:322-377) */
  method Symlink(vol: Volume, target: seq<byte>, p: Path) returns (rc: Errno, ghost i: nat, ghost x: Vol)
    requires Mounted(vol) && Canonical(p)
    modifies vol
    ensures vol.Valid() && vol.Books() == old(vol.Books())
    ensures SymlinkCode(old(Namespace(vol)), target, p) != Ok ==>
              rc == SymlinkCode(old(Namespace(vol)), target, p) && vol.View() == old(vol.View())
    ensures SymlinkCode(old(Namespace(vol)), target, p) == Ok ==>
              LinkOutcome(old(Namespace(vol)), old(vol.View()), x, vol.View(), vol.meta, vol.geo.first, target, p, i,
                rc)
    ensures SymlinkCode(old(Namespace(vol)), target, p) == Ok ==>
              (rc == Ok <==> && InodesLeft(vol.geo, vol.Books(), old(vol.View()).iused) > 0
                             && LinkFits(old(vol.View()), vol.geo, vol.Books(), ParentOf(old(Namespace(vol)), p).ino,
                                Leaf(p), |target|))
  {
    hide Items, Drifts, SuperDrift, Intact, Shapely, Walk, LinkCreated, LinkUndone, OnlyLeaked, Namespace, Pack, TreeOf,
         InodesLeft, LinkFits;
    ghost var v, t := vol.View(), Namespace(vol);
    i, x := 0, v;
    if target == [] {
      return EINVAL, 0, v;
    }
    if |target| >= MAX_PATH {
      return ENAMETOOLONG, 0, v;
    }
    if !Splits(p) {
      return ENOENT, 0, v;
    }
    var ok, d := PathToInode(vol, Parent(p));
    if !ok {
      return ENOENT, 0, v;
    }
    WalkByParent(t, p);
    MountedIsReady(vol);
    var exists_, e := DirLookup(vol, d, Leaf(p));
    LookupIsStep(vol, d, Leaf(p));
    if exists_ {
      return EEXIST, 0, v;
    }
    NamespaceIs(vol);
    NothingLeaked(v, vol.meta, vol.geo.first);
    var got, ino := vol.AllocInode(false);
    if !got {
      return ENOSPC, 0, v;
    }
    i := ino;
    if |target| <= MAX_INLINE {
      rc, x := MakeFast(vol, v, d, Leaf(p), ino, target);
    } else {
      rc, x := MakeLong(vol, v, d, Leaf(p), ino, target);
    }
  }
}
