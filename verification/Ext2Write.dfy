/**
 * Looking up a path (fs/ext2/dir.c) and ext2_create (fs/ext2/write.c) of files and
 * directories.  Paths are component lists in the canonical form the VFS layer
 * hands down; disk transfers are taken to succeed, so the -EIO exits of the
 * original do not occur.
 */
module Ext2Write {
  import opened Bytes
  import opened Ext2Refs
  import opened Ext2Volume
  import opened Ext2Sound
  import opened Ext2Blocks
  import opened Ext2Data
  import opened Ext2DirBlock
  import opened Ext2DirScan
  import opened Ext2Dir
  import opened Ext2Tree
  import opened Ext2Names

  datatype Errno = Ok | ENOENT | EEXIST | ENOTDIR | EISDIR | ENOSPC | ENOTEMPTY | EPERM | EINVAL | ENAMETOOLONG

  datatype Found = Nowhere | At(ino: nat)

  const FILE_MODE: nat := 0x81A4
  const LINK_MODE: nat := 0xA1FF
  const MAX_NAME: nat := 64

  ghost predicate Mounted(vol: Volume)
    reads vol
  {
    vol.Valid() && Intact(vol.View(), vol.meta, vol.geo.first)
  }

  /** The namespace of a mounted volume. */
  ghost function Namespace(vol: Volume): Tree
    reads vol
    requires Mounted(vol)
  {
    FsShapely(vol.View(), vol.meta, vol.geo.first);
    TreeOf(vol.View())
  }

  type Path = seq<Name>

  predicate PathOk(p: Path) {
    forall k :: 0 <= k < |p| ==> 1 <= |p[k]| <= 255
  }

  /** Following names from an inode. */
  ghost function Walk(t: Tree, from: nat, p: Path): Found
    decreases |p|
  {
    if p == [] then At(from)
    else if from in t.names && p[0] in t.names[from] then Walk(t, t.names[from][p[0]], p[1..])
    else Nowhere
  }

  lemma {:induction false} WalkSnoc(t: Tree, from: nat, p: Path, n: Name)
    ensures Walk(t, from, p + [n]) ==
            match Walk(t, from, p)
            case Nowhere => Nowhere
            case At(d) => if d in t.names && n in t.names[d] then At(t.names[d][n]) else Nowhere
    decreases |p|
  {
    if p == [] {
      assert (p + [n])[1..] == [];
    } else {
      assert (p + [n])[1..] == p[1..] + [n] && (p + [n])[0] == p[0];
      if from in t.names && p[0] in t.names[from] {
        WalkSnoc(t, t.names[from][p[0]], p[1..], n);
      }
    }
  }

  /** A walk ends at a live inode or nowhere. */
  lemma {:induction false} WalkLive(t: Tree, from: nat, p: Path)
    requires Linked(t) && from < |t.kinds| && t.kinds[from] != Free
    ensures Walk(t, from, p).At? ==> Walk(t, from, p).ino < |t.kinds| && t.kinds[Walk(t, from, p).ino] != Free
    decreases |p|
  {
    hide CountOk;
    if p != [] && from in t.names && p[0] in t.names[from] {
      var next := t.names[from][p[0]];
      StepLive(t, from, p[0]);
      WalkLive(t, next, p[1..]);
    }
  }

  lemma StepLive(t: Tree, d: nat, n: Name)
    requires Linked(t) && d in t.names && n in t.names[d]
    ensures t.names[d][n] < |t.kinds| && t.kinds[t.names[d][n]] != Free
  {
    if Proper(n) {
      assert HasEntry(t, d, n);
    } else if n == DOTDOT && d != ROOT {
      assert CountOk(t, d);
      var e :| e in Entries(t, d);
      assert HasEntry(t, e.0, e.1);
    }
  }

  /** ext2_path_to_inode (fs/ext2/dir.c:96-121) */
  method PathToInode(vol: Volume, p: Path) returns (ok: bool, ino: nat)
    requires Mounted(vol) && PathOk(p)
    ensures Walk(Namespace(vol), ROOT, p) == if ok then At(ino) else Nowhere
    ensures ok ==> 1 <= ino <= vol.geo.inodes && vol.inodes[ino] != ZERO_INODE
  {
    hide Fs, Linked, Tidy, Shapely, Names, Items;
    ghost var t := Namespace(vol);
    ino := ROOT;
    RootLive(vol);
    var k := 0;
    while k < |p|
      invariant 0 <= k <= |p| && 1 <= ino <= vol.geo.inodes
      invariant Walk(t, ROOT, p) == Walk(t, ino, p[k..])
      invariant ino < |t.kinds| && t.kinds[ino] != Free
    {
      var found, next := DirLookup(vol, ino, p[k]);
      LookupIsStep(vol, ino, p[k]);
      assert p[k..][0] == p[k] && p[k..][1..] == p[k + 1..];
      if !found {
        return false, 0;
      }
      StepLive(t, ino, p[k]);
      NotZero(vol, next);
      ino := next;
      k := k + 1;
    }
    NotZero(vol, ino);
    return true, ino;
  }

  lemma RootLive(vol: Volume)
    requires Mounted(vol)
    ensures 1 <= ROOT <= vol.geo.inodes && Namespace(vol).kinds[ROOT] != Free && ROOT < |Namespace(vol).kinds|
  {
    hide Fs, Tidy, Names, CountOk, Wired;
  }

  /** Looking up a name on the volume is one step in its tree. */
  lemma LookupIsStep(vol: Volume, d: nat, n: Name)
    requires Mounted(vol) && 1 <= d <= vol.geo.inodes
    ensures d in Namespace(vol).names <==> IsDir(vol.inodes[d])
    ensures d in Namespace(vol).names ==>
              DirShape(vol.inodes[d], vol.blocks) && Namespace(vol).names[d] == Names(vol.View(), d)
  {
    hide Sound, Tidy, Linked, DirShape;
  }

  lemma NotZero(vol: Volume, i: nat)
    requires Mounted(vol) && i < |Namespace(vol).kinds| && Namespace(vol).kinds[i] != Free
    ensures 1 <= i <= vol.geo.inodes && vol.inodes[i] != ZERO_INODE && vol.inodes[i].mode != 0 && i in vol.View().iused
  {
    hide Fs, Names, Linked, Shapely, Items;
    assert TidyAt(vol.View(), i);
  }

  // ---- create ----

  ghost predicate CanName(vol: Volume, d: nat, leaf: Name)
    reads vol
  {
    && Mounted(vol) && 1 <= d <= vol.geo.inodes && vol.inodes[d] != ZERO_INODE && 1 <= |leaf| <= 255 && Proper(leaf)
    && (d in Namespace(vol).names ==> leaf !in Namespace(vol).names[d])
  }

  /** The outcome of an operation that names a new inode i in directory d, or fails leaving everything as it was. */
  ghost predicate Outcome(v: Vol, w: Vol, meta: set<nat>, first: nat, rc: Errno, d: nat, leaf: Name, i: nat,
      isDir: bool)
  {
    && Shapely(v) && Shapely(w) && (rc == Ok || rc == ENOSPC)
    && (rc == ENOSPC ==> OnlyLeaked(v, w, meta, first))
    && (rc == Ok ==>
          && d in TreeOf(v).names && leaf !in TreeOf(v).names[d] && d < |v.inodes|
          && i < |v.inodes| && TreeOf(v).kinds[i] == Free && v.inodes[i] == ZERO_INODE
          && KeepsAllBut(v, w, {i, d})
          && TreeOf(w) == if isDir then MadeDir(TreeOf(v), d, leaf, i) else Created(TreeOf(v), d, leaf, i))
  }

  /**
   * What creating a file or directory takes: an inode, for a directory a block, and a parent
   * directory with room for the name.
   */
  ghost predicate CanCreate(v: Vol, geo: Geometry, books: Ledger, d: nat, leaf: Name, isDir: bool) {
    var left := BlocksLeft(geo, books, v.used);
    InodesLeft(geo, books, v.iused) > 0 && if isDir then left > 0 && Takes(v, d, leaf, left - 1)
      else Takes(v, d, leaf, left)
  }

  /** ext2_create for a regular file (fs/ext2/write.c:100-158 with directory == false). */
  method MakeFile(vol: Volume, d: nat, leaf: Name) returns (rc: Errno, ghost i: nat)
    requires CanName(vol, d, leaf)
    modifies vol
    ensures Mounted(vol) && vol.Books() == old(vol.Books())
    ensures Outcome(old(vol.View()), vol.View(), vol.meta, vol.geo.first, rc, d, leaf, i, false)
    ensures rc == Ok ==> vol.inodes[i] == Inode(FILE_MODE, 1, 0, 0, NO_POINTERS)
    ensures rc == Ok <==> CanCreate(old(vol.View()), vol.geo, vol.Books(), d, leaf, false)
  {
    hide Items, Drifts, SuperDrift, Fs, Tidy, Linked, Shapely, Names, DirShape, KeepsOthers, OnlyLeaked, DirChanged,
         KeepsAllBut, NoRefs, Created, Retired,
      BlocksLeft, InodesLeft, Takes;
    ghost var v := vol.View();
    ghost var meta, first := vol.meta, vol.geo.first;
    FsShapely(v, meta, first);
    NothingLeaked(v, meta, first);
    var got, ino := vol.AllocInode(false);
    if !got {
      return ENOSPC, 0;
    }
    i := ino;
    FreshInode(v, meta, first, ino);
    var inode := Inode(FILE_MODE, 1, 0, 0, NO_POINTERS);
    NewFileHasNoRefs(v.blocks);
    NumberedStep(v, meta, first, ino, inode);
    var stored := vol.WriteInode(ino, inode);
    assert vol.View() == Numbered(v, ino, inode);
    rc := PlaceFile(vol, v, d, leaf, ino, inode);
  }

  /** fs/ext2/write.c:153-158 for a file: name the new inode, or take it back. */
  method PlaceFile(vol: Volume, ghost v: Vol, d: nat, leaf: Name, ino: nat, n: Inode) returns (rc: Errno)
    requires vol.Valid() && Intact(v, vol.meta, vol.geo.first) && Shapely(v) && 1 <= d <= vol.geo.inodes
             && 1 <= |leaf| <= 255 && Proper(leaf)
    requires d in TreeOf(v).names ==> leaf !in TreeOf(v).names[d]
    requires 0 < ino < |v.inodes| && ino !in v.iused && vol.View() == Numbered(v, ino, n)
    requires n == Inode(FILE_MODE, 1, 0, 0, NO_POINTERS)
    modifies vol
    ensures Mounted(vol) && vol.Books() == old(vol.Books())
    ensures Outcome(v, vol.View(), vol.meta, vol.geo.first, rc, d, leaf, ino, false)
    ensures rc == Ok ==> vol.inodes[ino] == n
    ensures rc == Ok <==> Takes(v, d, leaf, BlocksLeft(vol.geo, vol.Books(), v.used))
  {
    hide Items, Drifts, SuperDrift, Fs, Tidy, Linked, Shapely, Names, DirShape, KeepsOthers, OnlyLeaked, DirChanged,
         KeepsAllBut, NoRefs, Created, Numbered,
      BlocksLeft, Takes;
    ghost var meta, first := vol.meta, vol.geo.first;
    FreshInode(v, meta, first, ino);
    NewFileHasNoRefs(v.blocks);
    NumberedStep(v, meta, first, ino, n);
    ghost var u := vol.View();
    NumberedIs(v, ino, n);
    NamesStill(v, u, meta, first, d, leaf);
    TakesAcross(v, u, ino, d, leaf, BlocksLeft(vol.geo, vol.Books(), v.used));
    var placed := DirInsert(vol, d, leaf, ino, 1);
    ghost var x := vol.View();
    if !placed {
      LeakedKeeps(u, x, meta, first);
      NewFileHasNoRefs(x.blocks);
      vol.FreeInode(ino, false);
      Unplaced(v, u, x, vol.View(), meta, first, ino, n);
      FsShapely(vol.View(), meta, first);
      return ENOSPC;
    }
    NamedStep(v, u, x, meta, first, d, leaf, ino);
    return Ok;
  }

  /** A new file or directory i does not matter to another directory; a new inode that is no directory takes no name. */
  lemma TakesAcross(v: Vol, u: Vol, i: nat, d: nat, leaf: Name, left: nat)
    requires KeepsOthers(v, u, i) && i < |v.inodes| && v.inodes[i] == ZERO_INODE && (d == i ==> !IsDir(u.inodes[i]))
    ensures Takes(u, d, leaf, left) <==> Takes(v, d, leaf, left)
  {
    hide Insertable, DirShape, Body;
    if d != i {
      if d < |v.inodes| { assert KeepsInode(v, u, d); }
      TakesKept(v, u, d, leaf, left);
    }
  }

  lemma NumberedIs(v: Vol, i: nat, n: Inode)
    requires i < |v.inodes|
    ensures var u := Numbered(v, i, n);
            |u.inodes| == |v.inodes| && u.inodes[i] == n && i in u.iused && u.used == v.used && u.blocks == v.blocks
  {
  }

  lemma LeakedKeeps(u: Vol, x: Vol, meta: set<nat>, first: nat)
    requires OnlyLeaked(u, x, meta, first)
    ensures x.iused == u.iused && x.inodes == u.inodes
  {
    hide Fs, KeepsOthers;
  }

  /** The directories the caller looked at are still there after the new inode is written. */
  lemma NamesStill(v: Vol, u: Vol, meta: set<nat>, first: nat, d: nat, leaf: Name)
    requires Fs(u, meta, first) && Shapely(v) && Shapely(u) && d < |u.inodes|
    requires d in TreeOf(v).names ==> leaf !in TreeOf(v).names[d]
    requires d in TreeOf(u).names ==> d in TreeOf(v).names && TreeOf(u).names[d] == TreeOf(v).names[d]
    ensures IsDir(u.inodes[d]) ==> DirShape(u.inodes[d], u.blocks) && leaf !in Names(u, d) && d in TreeOf(u).names
  {
    hide DirShape, Names, Sound;
  }

  /** Taking back an inode that could not be named (fs/ext2/write.c:154-158). */
  lemma Unplaced(v: Vol, u: Vol, x: Vol, y: Vol, meta: set<nat>, first: nat, i: nat, n: Inode)
    requires Intact(v, meta, first) && 0 < i < |v.inodes| && i !in v.iused && v.inodes[i] == ZERO_INODE
    requires u == Numbered(v, i, n) && KeepsOthers(v, u, i) && OnlyLeaked(u, x, meta, first)
    requires !IsDir(n) && NoRefs(n, x.blocks)
    requires y == x.(iused := x.iused - iset{i}, inodes := x.inodes[i := ZERO_INODE])
    ensures OnlyLeaked(v, y, meta, first) && Intact(y, meta, first)
  {
    hide Fs, Tidy, Linked, Shapely, NoRefs, KeepsOthers;
    assert KeepsOthers(u, x, |u.inodes|) && Fs(x, meta, first);
    var a := x.(inodes := x.inodes[i := ZERO_INODE]);
    ZeroRefs(x.blocks);
    NewFileStep(x, meta, first, i, ZERO_INODE);
    FsIgnoresInodeMap(a, y, meta, first);
    UnplacedKeeps(v, u, x, a, y, i);
    assert y.iused == v.iused;
    UnnamedStep(v, y, meta, first, i);
  }

  lemma UnplacedKeeps(v: Vol, u: Vol, x: Vol, a: Vol, y: Vol, i: nat)
    requires i < |v.inodes| && KeepsOthers(v, u, i) && KeepsOthers(u, x, |u.inodes|) && KeepsOthers(x, a, i)
             && KeepsOthers(a, y, |a.inodes|)
    ensures KeepsOthers(v, y, i)
  {
    hide Body;
    forall j: nat | j < |v.inodes| && j != i ensures KeepsInode(v, y, j) {
      assert KeepsInode(v, u, j) && KeepsInode(u, x, j) && KeepsInode(x, a, j) && KeepsInode(a, y, j);
    }
  }

  lemma NewFileHasNoRefs(blocks: seq<Block>)
    ensures NoRefs(Inode(FILE_MODE, 1, 0, 0, NO_POINTERS), blocks) && !IsDir(Inode(FILE_MODE, 1, 0, 0, NO_POINTERS))
  {
  }

  // ---- mkdir ----

  /** The volume once the new directory's block and inode are written (fs/ext2/write.c:100-151). */
  ghost function DirNumbered(v: Vol, i: nat, b: nat, parent: nat): Vol
    requires 0 < i < |v.inodes| < 0x1_0000_0000 && b < |v.blocks| < 0x1_0000_0000 && 0 < parent < 0x1_0000_0000
  {
    WithNewDir(v.(iused := v.iused + iset{i}), i, b, parent)
  }

  ghost predicate CanNumberDir(v: Vol, meta: set<nat>, first: nat, i: nat, b: nat, parent: nat) {
    && Intact(v, meta, first) && 0 < i < |v.inodes| < 0x1_0000_0000 && i !in v.iused
    && b !in v.used && first <= b < |v.blocks| < 0x1_0000_0000 && first > 0 && 0 < parent < 0x1_0000_0000
  }

  lemma DirNumberedStep(v: Vol, meta: set<nat>, first: nat, i: nat, b: nat, parent: nat)
    requires CanNumberDir(v, meta, first, i, b, parent)
    ensures b !in meta && Shapely(v) && v.inodes[i] == ZERO_INODE
    ensures var u := DirNumbered(v, i, b, parent);
            && Fs(u, meta, first) && Tidy(u) && KeepsOthers(v, u, i) && Shapely(u)
            && u.inodes[i] == NewDirInode(b) && i in u.iused && u.used == v.used + iset{b} && |u.inodes| == |v.inodes|
            && TreeOf(u) == Tree(TreeOf(v).kinds[i := Directory], TreeOf(v).links[i := 2],
               TreeOf(v).names[i := Dots(i, parent)])
  {
    hide Sound, DirShape, Names, Linked, DotsBlock;
    FreshInode(v, meta, first, i);
    var a := v.(iused := v.iused + iset{i});
    FsIgnoresInodeMap(v, a, meta, first);
    NewDirStep(a, meta, first, i, b, parent);
    var u := DirNumbered(v, i, b, parent);
    assert KeepsOthers(v, u, i) by {
      hide Body;
      forall j: nat | j < |v.inodes| && j != i ensures KeepsInode(v, u, j) {
        assert KeepsInode(v, a, j) && KeepsInode(a, u, j);
      }
    }
    TidyKept(v, u, i);
  }

  /** Naming the new directory and counting it in the parent completes mkdir. */
  lemma DirNamedStep(v: Vol, u: Vol, x: Vol, meta: set<nat>, first: nat, d: nat, leaf: Name, i: nat, b: nat)
    requires CanNumberDir(v, meta, first, i, b, d) && u == DirNumbered(v, i, b, d) && Proper(leaf) && Shapely(v)
    requires d < |v.inodes| && d in TreeOf(v).names && leaf !in TreeOf(v).names[d]
    requires DirShape(u.inodes[d], u.blocks) && IsDir(u.inodes[d]) && leaf !in Names(u, d)
    requires DirChanged(u, x, meta, first, d, Names(u, d)[leaf := i])
    ensures |x.inodes| == |v.inodes| && x.inodes[d].links + 1 < 0x1_0000
    ensures var z := x.(inodes := x.inodes[d := x.inodes[d].(links := x.inodes[d].links + 1)]);
            && Intact(z, meta, first) && KeepsAllBut(v, z, {i, d}) && Shapely(z)
            && d < |TreeOf(v).links| && TreeOf(z) == MadeDir(TreeOf(v), d, leaf, i)
  {
    hide Sound, DirShape, Names, Linked, DirNumbered, MadeDir, KeepsOthers;
    FreshInode(v, meta, first, i);
    DirNumberedStep(v, meta, first, i, b, d);
    assert |x.inodes| == |v.inodes| by { assert KeepsOthers(v, u, i) && KeepsOthers(u, x, d); KeepsSize(v, u, x, i, d);
           }
    var z := x.(inodes := x.inodes[d := x.inodes[d].(links := x.inodes[d].links + 1)]);
    TreeDirChanged(u, x, meta, first, d, Names(u, d)[leaf := i]);
    CountStep(x, meta, first, d, x.inodes[d].links + 1);
    MadeDirLinked(TreeOf(v), d, leaf, i);
    assert d != i;
    assert x.inodes[d].links == u.inodes[d].links == v.inodes[d].links by { KeepsLinks(v, u, i, d); }
    DirCountBound(v, meta, first, d);
    MadeDirIs(TreeOf(v), TreeOf(u), TreeOf(x), TreeOf(z), d, leaf, i);
    NamedTidy(u, x, meta, first, d, leaf, i);
    CountTidy(x, z, d);
    KeepsOne(v, u, i);
    KeepsChain(v, u, x, {i}, d);
    KeepsChain(v, x, z, {i} + {d}, d);
    assert {i} + {d} + {d} == {i, d};
  }

  lemma KeepsSize(v: Vol, u: Vol, x: Vol, i: nat, d: nat)
    requires KeepsOthers(v, u, i) && KeepsOthers(u, x, d)
    ensures |x.inodes| == |v.inodes|
  {
  }

  lemma KeepsLinks(v: Vol, u: Vol, i: nat, d: nat)
    requires KeepsOthers(v, u, i) && d < |v.inodes| && d != i
    ensures |u.inodes| == |v.inodes| && u.inodes[d] == v.inodes[d]
  {
    hide Body;
    assert KeepsInode(v, u, d);
  }

  /** Changing one link count keeps the tidy part. */
  lemma CountTidy(x: Vol, z: Vol, d: nat)
    requires Tidy(x) && d < |x.inodes| && KeepsOthers(x, z, d) && z.iused == x.iused
    requires x.inodes[d] != ZERO_INODE && z.inodes == x.inodes[d := x.inodes[d].(links := z.inodes[d].links)]
             && z.inodes[d].links < 0x1_0000
    ensures Tidy(z)
  {
    hide KeepsOthers;
    assert TidyAt(x, d);
    TidyKept(x, z, d);
  }

  lemma MadeDirIs(t: Tree, u: Tree, x: Tree, z: Tree, d: nat, leaf: Name, i: nat)
    requires i < |t.kinds| == |t.links| && d < |t.links| && d in t.names && d != i
    requires u == Tree(t.kinds[i := Directory], t.links[i := 2], t.names[i := Dots(i, d)])
    requires x == Bind(u, d, leaf, i) && z == x.(links := x.links[d := t.links[d] + 1])
    ensures z == MadeDir(t, d, leaf, i)
  {
  }

  /** Taking back a directory that could not be named (fs/ext2/write.c:154-158). */
  lemma DirUnplaced(v: Vol, u: Vol, x: Vol, meta: set<nat>, first: nat, i: nat, b: nat, parent: nat)
    requires CanNumberDir(v, meta, first, i, b, parent) && u == DirNumbered(v, i, b, parent)
             && OnlyLeaked(u, x, meta, first)
    ensures i < |x.inodes| && x.inodes[i] == NewDirInode(b) && i in x.iused && NewDirInode(b).ptr[INDIRECT] == 0
    ensures OnlyLeaked(v, Retired(x, i), meta, first) && Intact(Retired(x, i), meta, first)
  {
    hide Tidy, Linked, KeepsOthers, Sound, DirShape, Ref;
    DirNumberedStep(v, meta, first, i, b, parent);
    assert KeepsOthers(u, x, |u.inodes|) && x.inodes == u.inodes;
    var y := Retired(x, i);
    NewDirPlain(x.blocks, b);
    RetireStep(x, meta, first, i);
    hide Fs;
    KeepsThree(v, u, x, y, i);
    assert y.iused == v.iused;
    RetiredUsed(v, u, x, y, meta, first, b, i);
    UnnamedStep(v, y, meta, first, i);
  }

  lemma NewDirPlain(blocks: seq<Block>, b: nat)
    requires 0 < b < 0x1_0000_0000
    ensures Plain(NewDirInode(b)) && RawWords(NewDirInode(b), blocks) == iset{b}
  {
    var n := NewDirInode(b);
    assert n.ptr[0] == b && n.ptr[INDIRECT] == 0;
    assert forall r: nat :: HasPointer(n, 13, r) <==> r == b;
  }

  lemma RetiredUsed(v: Vol, u: Vol, x: Vol, y: Vol, meta: set<nat>, first: nat, b: nat, i: nat)
    requires b !in v.used && u.used == v.used + iset{b} && OnlyLeaked(u, x, meta, first)
    requires i < |x.inodes| && y == Retired(x, i) && RawWords(x.inodes[i], x.blocks) == iset{b}
    ensures y.used == v.used || exists l: nat :: l !in v.used && y.used == v.used + iset{l}
  {
    hide Fs, KeepsOthers, RawWords;
    if x.used == u.used {
      assert y.used == v.used;
    } else {
      var l: nat :| l !in u.used && x.used == u.used + iset{l};
      assert y.used == v.used + iset{l};
    }
  }

  lemma KeepsThree(v: Vol, u: Vol, x: Vol, y: Vol, i: nat)
    requires i < |v.inodes| && KeepsOthers(v, u, i) && KeepsOthers(u, x, |u.inodes|) && KeepsOthers(x, y, i)
    ensures KeepsOthers(v, y, i)
  {
    hide Body;
    forall j: nat | j < |v.inodes| && j != i ensures KeepsInode(v, y, j) {
      assert KeepsInode(v, u, j) && KeepsInode(u, x, j) && KeepsInode(x, y, j);
    }
  }

  /** ext2_create for a directory (fs/ext2/write.c:100-168 with directory == true). */
  method MakeDirectory(vol: Volume, d: nat, leaf: Name) returns (rc: Errno, ghost i: nat)
    requires CanName(vol, d, leaf)
    modifies vol
    ensures Mounted(vol) && vol.Books() == old(vol.Books())
    ensures Outcome(old(vol.View()), vol.View(), vol.meta, vol.geo.first, rc, d, leaf, i, true)
    ensures rc == Ok <==> CanCreate(old(vol.View()), vol.geo, vol.Books(), d, leaf, true)
  {
    hide Items, Drifts, SuperDrift, Fs, Tidy, Linked, Shapely, Names, DirShape, KeepsOthers, OnlyLeaked, DirChanged,
         KeepsAllBut, DotsBlock, DirNumbered, NewDirInode,
      BlocksLeft, InodesLeft, Takes;
    ghost var v := vol.View();
    ghost var meta, first := vol.meta, vol.geo.first;
    FsShapely(v, meta, first);
    NothingLeaked(v, meta, first);
    var got, ino := vol.AllocInode(true);
    if !got {
      return ENOSPC, 0;
    }
    i := ino;
    FreshInode(v, meta, first, ino);
    var room, blk := vol.AllocBlock();
    if !room {
      vol.FreeInode(ino, true);
      assert vol.inodes == v.inodes;
      assert vol.View().iused == v.iused;
      assert vol.View() == v;
      return ENOSPC, ino;
    }
    DirNumberedStep(v, meta, first, ino, blk, d);
    var buf := DotsBlock(ino, d);
    var wrote := vol.WriteBlock(blk, buf);
    var stored := vol.WriteInode(ino, NewDirInode(blk));
    DirNumberedIs(v, vol.View(), ino, blk, d);
    rc := PlaceDirectory(vol, v, d, leaf, ino, blk);
  }

  lemma DirNumberedIs(v: Vol, u: Vol, i: nat, b: nat, parent: nat)
    requires 0 < i < |v.inodes| < 0x1_0000_0000 && b < |v.blocks| < 0x1_0000_0000 && 0 < parent < 0x1_0000_0000
    requires u.used == v.used + iset{b} && u.iused == v.iused + iset{i} && u.inodes == v.inodes[i := NewDirInode(b)]
    requires u.blocks == v.blocks[b := ZERO_BLOCK][b := DotsBlock(i, parent)]
    ensures u == DirNumbered(v, i, b, parent)
  {
    hide DotsBlock, NewDirInode;
  }

  /** fs/ext2/write.c:153-168 for a directory: name it and count it, or take it back. */
  method PlaceDirectory(vol: Volume, ghost v: Vol, d: nat, leaf: Name, ino: nat, blk: nat) returns (rc: Errno)
    requires vol.Valid() && CanNumberDir(v, vol.meta, vol.geo.first, ino, blk, d)
             && vol.View() == DirNumbered(v, ino, blk, d)
    requires 1 <= d <= vol.geo.inodes && 1 <= |leaf| <= 255 && Proper(leaf) && Shapely(v)
    requires d in TreeOf(v).names ==> leaf !in TreeOf(v).names[d]
    requires d != ino
    modifies vol
    ensures Mounted(vol) && vol.Books() == old(vol.Books())
    ensures Outcome(v, vol.View(), vol.meta, vol.geo.first, rc, d, leaf, ino, true)
    ensures rc == Ok <==> Takes(v, d, leaf, BlocksLeft(vol.geo, vol.Books(), old(vol.View()).used))
  {
    hide Items, Drifts, SuperDrift, Fs, Tidy, Linked, Shapely, Names, DirShape, KeepsOthers, OnlyLeaked, DirChanged,
         KeepsAllBut, DirNumbered, NewDirInode, MadeDir, RawWords,
      BlocksLeft, Takes;
    ghost var meta, first := vol.meta, vol.geo.first;
    DirNumberedStep(v, meta, first, ino, blk, d);
    ghost var u := vol.View();
    NamesStill(v, u, meta, first, d, leaf);
    TakesAcross(v, u, ino, d, leaf, BlocksLeft(vol.geo, vol.Books(), u.used));
    var placed := DirInsert(vol, d, leaf, ino, 2);
    ghost var x := vol.View();
    if !placed {
      DirUnplaced(v, u, x, meta, first, ino, blk, d);
      var emptied := FreeAllBlocks(vol, NewDirInode(blk));
      vol.FreeInode(ino, true);
      assert vol.View() == Retired(x, ino);
      FsShapely(vol.View(), meta, first);
      return ENOSPC;
    }
    DirNamedStep(v, u, x, meta, first, d, leaf, ino, blk);
    var read, parent := vol.ReadInode(d);
    var stored := vol.WriteInode(d, parent.(links := Wrap16(parent.links + 1)));
    FreshInode(v, meta, first, ino);
    return Ok;
  }

  // ---- the operation by path ----

  function Leaf(p: Path): Name requires p != [] { p[|p| - 1] }
  function Parent(p: Path): Path requires p != [] { p[..|p| - 1] }

  /** A path as the VFS hands it down: canonical, so its last component is not "." or "..". */
  predicate Canonical(p: Path) {
    PathOk(p) && (p != [] ==> Proper(Leaf(p)))
  }

  /** split_parent_leaf (fs/ext2/write.c:37-56): the root and over-long names are refused. */
  predicate Splits(p: Path) {
    p != [] && |Leaf(p)| < MAX_NAME
  }

  /** Where the parent directory of a path is. */
  ghost function ParentOf(t: Tree, p: Path): Found {
    if Splits(p) then Walk(t, ROOT, Parent(p)) else Nowhere
  }

  /** What a path names. */
  lemma WalkByParent(t: Tree, p: Path)
    requires p != []
    ensures Walk(t, ROOT, p) ==
            match Walk(t, ROOT, Parent(p))
            case Nowhere => Nowhere
            case At(d) => if d in t.names && Leaf(p) in t.names[d] then At(t.names[d][Leaf(p)]) else Nowhere
  {
    assert p == Parent(p) + [Leaf(p)];
    WalkSnoc(t, ROOT, Parent(p), Leaf(p));
  }

  /** ext2_create (fs/ext2/write.c:87-169) */
  method Create(vol: Volume, p: Path, isDir: bool) returns (rc: Errno, ghost i: nat)
    requires Mounted(vol) && Canonical(p)
    modifies vol
    ensures Mounted(vol) && vol.Books() == old(vol.Books())
    ensures rc == ENOENT <==> ParentOf(old(Namespace(vol)), p) == Nowhere
    ensures rc == EEXIST <==> ParentOf(old(Namespace(vol)), p).At? && Walk(old(Namespace(vol)), ROOT, p).At?
    ensures rc in {ENOENT, EEXIST} ==> vol.View() == old(vol.View())
    ensures rc !in {ENOENT, EEXIST} ==>
              Outcome(old(vol.View()), vol.View(), vol.meta, vol.geo.first, rc, ParentOf(old(Namespace(vol)), p).ino,
                Leaf(p), i, isDir)
    ensures rc == Ok && !isDir ==> vol.inodes[i] == Inode(FILE_MODE, 1, 0, 0, NO_POINTERS)
    ensures rc !in {ENOENT, EEXIST} ==>
              (rc == Ok <==>
                  CanCreate(old(vol.View()), vol.geo, vol.Books(), ParentOf(old(Namespace(vol)), p).ino, Leaf(p),
                  isDir))
  {
    hide Items, Intact, Walk, Outcome, CanCreate;
    i := 0;
    if p == [] || |Leaf(p)| >= MAX_NAME {
      return ENOENT, 0;
    }
    var ok, d := PathToInode(vol, Parent(p));
    if !ok {
      return ENOENT, 0;
    }
    WalkByParent(Namespace(vol), p);
    MountedIsReady(vol);
    var exists_, ino := DirLookup(vol, d, Leaf(p));
    LookupIsStep(vol, d, Leaf(p));
    if exists_ {
      return EEXIST, 0;
    }
    if isDir {
      rc, i := MakeDirectory(vol, d, Leaf(p));
    } else {
      rc, i := MakeFile(vol, d, Leaf(p));
    }
    OutcomeCodes(old(vol.View()), vol.View(), vol.meta, vol.geo.first, rc, d, Leaf(p), i, isDir);
  }

  lemma MountedIsReady(vol: Volume)
    requires Mounted(vol)
    ensures Ready(vol)
  {
    hide Fs, Tidy, Linked;
  }

  lemma OutcomeCodes(v: Vol, w: Vol, meta: set<nat>, first: nat, rc: Errno, d: nat, leaf: Name, i: nat, isDir: bool)
    requires Outcome(v, w, meta, first, rc, d, leaf, i, isDir)
    ensures rc == Ok || rc == ENOSPC
  {
    hide OnlyLeaked, KeepsAllBut, Shapely;
  }
}
