/**
 * Whole-file writes and reads (fs/ext2/write.c:428-487, fs/ext2/file.c:39-75).
 */
module Ext2File {
  import opened Bytes
  import opened Ext2Refs
  import opened Ext2Volume
  import opened Ext2Sound
  import opened Ext2Blocks
  import opened Ext2Data
  import opened Ext2DirBlock
  import opened Ext2DirScan
  import opened Ext2Dir
  import opened Ext2Tree
  import opened Ext2Names
  import opened Ext2Write
  import opened Ext2Unlink

  /** A file other than those in s reads as before. */
  lemma KeptContents(v: Vol, w: Vol, s: set<nat>, j: nat)
    requires KeepsAllBut(v, w, s) && j < |v.inodes| && j !in s
    ensures w.inodes[j] == v.inodes[j] && FileData(w.inodes[j], w.blocks) == FileData(v.inodes[j], v.blocks)
  {
    hide Body, FileData;
    assert KeepsInode(v, w, j);
    var n := v.inodes[j];
    var a, b := FileData(n, v.blocks), FileData(n, w.blocks);
    forall i | 0 <= i < n.size ensures a[i] == b[i] {
      FileDataOfBody(n, v.blocks, i);
      FileDataOfBody(n, w.blocks, i);
    }
  }

  /** What is in use once inode i's own blocks are given back. */
  ghost function Rest(v: Vol, i: nat): iset<nat>
    requires i < |v.inodes|
  {
    v.used - References(v.inodes[i], v.blocks)
  }

  /**
   * The outcome of rewriting file i with data.  Nobody else notices; on success
   * the file reads back as data and holds only fresh blocks; out of space, the
   * file is empty, its old blocks are free and at most one block is lost.
   */
  ghost predicate Rewritten(v: Vol, w: Vol, meta: set<nat>, first: nat, i: nat, data: seq<byte>, rc: Errno) {
    && Intact(w, meta, first) && Shapely(v) && Shapely(w) && TreeOf(w) == TreeOf(v)
    && i < |v.inodes| && KeepsOthers(v, w, i) && w.inodes[i].mode == v.inodes[i].mode
    && (rc == Ok || rc == ENOSPC)
    && (rc == Ok ==>
          && FileData(w.inodes[i], w.blocks) == data
          && var mine := References(w.inodes[i], w.blocks); w.used == Rest(v, i) + mine && Rest(v, i) !! mine)
    && (rc == ENOSPC ==>
          && w.inodes[i].size == 0 && NoRefs(w.inodes[i], w.blocks)
          && (w.used == Rest(v, i) || exists b: nat :: b !in Rest(v, i) && w.used == Rest(v, i) + iset{b}))
  }

  /** Rewriting the blocks of a file leaves the namespace alone. */
  lemma RewriteIntact(v: Vol, w: Vol, meta: set<nat>, first: nat, i: nat)
    requires Intact(v, meta, first) && Sound(w, meta, first) && KeepsOthers(v, w, i) && w.iused == v.iused
             && i < |v.inodes|
    requires w.inodes[i].mode == v.inodes[i].mode && w.inodes[i].links == v.inodes[i].links
             && KindOf(v.inodes[i]) == Other
    ensures Intact(w, meta, first) && Shapely(v) && Shapely(w) && TreeOf(w) == TreeOf(v)
  {
    hide Sound, DirShape, Names, Linked, KeepsOthers;
    FsShapely(v, meta, first);
    FsKept(v, w, meta, first, i);
    FsShapely(w, meta, first);
    TreeChange(v, w, i);
    assert TreeOf(v).kinds[i] == KindOf(v.inodes[i]) && TreeOf(v).links[i] == v.inodes[i].links;
    assert i !in TreeOf(v).names && TreeOf(v).names - {i} == TreeOf(v).names;
    assert TreeOf(w) == TreeOf(v);
    assert TidyAt(v, i);
    ZeroRefs(v.blocks);
    TidyKept(v, w, i);
  }

  /** The in-memory inode after its old blocks are freed (fs/ext2/write.c:464). */
  ghost function Freed(v: Vol, i: nat): Vol
    requires i < |v.inodes|
  {
    v.(used := v.used - RawWords(v.inodes[i], v.blocks), inodes := v.inodes[i := Emptied(v.inodes[i])])
  }

  lemma FreedStep(v: Vol, meta: set<nat>, first: nat, i: nat)
    requires Intact(v, meta, first) && i < |v.inodes| && IsReg(v.inodes[i])
    ensures Sound(Freed(v, i), meta, first) && KeepsOthers(v, Freed(v, i), i) && Freed(v, i).used == Rest(v, i)
    ensures Plain(Emptied(v.inodes[i])) && NoRefs(Emptied(v.inodes[i]), v.blocks) && |v.inodes| == |Freed(v, i).inodes|
    ensures KindOf(v.inodes[i]) == Other && KindOf(Emptied(v.inodes[i])) == Other
  {
    hide Sound, DirShape, Tidy, Linked, Ref, KeepsOthers, RawWords;
    assert Plain(v.inodes[i]);
    hide Plain;
    FreeAllIsDrop(v, meta, first, i);
    EmptiedRefs(v.inodes[i], v.blocks);
  }

  /** Success: the new size goes in with the new pointers (fs/ext2/write.c:484-486). */
  lemma DoneStep(v: Vol, a: Vol, b: Vol, meta: set<nat>, first: nat, i: nat, data: seq<byte>)
    requires Intact(v, meta, first) && i < |v.inodes| && KindOf(v.inodes[i]) == Other && a.used == Rest(v, i)
    requires KeepsOthers(v, a, i) && Sound(b, meta, first) && Stopped(a, b, i, Written) && b.iused == v.iused
    requires b.inodes[i].mode == v.inodes[i].mode && b.inodes[i].links == v.inodes[i].links
    requires FileData(b.inodes[i].(size := |data|), b.blocks) == data
    ensures Rewritten(v, Over(b, i, b.inodes[i].(size := |data|)), meta, first, i, data, Ok)
  {
    hide Intact, Sound, KeepsOthers, References, FileData, Ref;
    KeepsTransitive(v, a, b, i);
    var n := b.inodes[i];
    var n' := n.(size := |data|);
    SizeRefs(n, b.blocks, |data|);
    SameStep(b, meta, first, i, n');
    var w := Over(b, i, n');
    SizeReferences(n, b.blocks, |data|);
    KeepsTransitive(v, b, w, i);
    RewriteIntact(v, w, meta, first, i);
  }

  lemma SizeReferences(n: Inode, blocks: seq<Block>, size: nat)
    ensures References(n.(size := size), blocks) == References(n, blocks)
  {
    hide Ref;
    SizeRefs(n, blocks, size);
  }

  /** Failure: what was wired in is given back and the empty inode is stored (fs/ext2/write.c:467-482). */
  lemma FailStep(v: Vol, a: Vol, b: Vol, meta: set<nat>, first: nat, i: nat, data: seq<byte>, r: WriteResult)
    requires Intact(v, meta, first) && i < |v.inodes| && KindOf(v.inodes[i]) == Other && a.used == Rest(v, i)
    requires KeepsOthers(v, a, i) && Sound(b, meta, first) && Stopped(a, b, i, r) && b.iused == v.iused
             && Plain(b.inodes[i])
    requires b.inodes[i].mode == v.inodes[i].mode && b.inodes[i].links == v.inodes[i].links
    ensures Rewritten(v, Freed(b, i), meta, first, i, data, ENOSPC)
    ensures Freed(b, i).used == Rest(v, i) + Leaked(r) && Rest(v, i) !! Leaked(r)
  {
    hide Intact, Sound, KeepsOthers, References, FileData, Ref, RawWords, Plain;
    KeepsTransitive(v, a, b, i);
    FreeAllIsDrop(b, meta, first, i);
    EmptiedRefs(b.inodes[i], b.blocks);
    var w := Freed(b, i);
    KeepsTransitive(v, b, w, i);
    RewriteIntact(v, w, meta, first, i);
    assert w.used == Rest(v, i) + Leaked(r);
  }

  /** How many blocks are on offer once file i has given its own back. */
  ghost function LeftFor(v: Vol, geo: Geometry, books: Ledger, i: nat): nat
    requires i < |v.inodes|
  {
    BlocksLeft(geo, books, Rest(v, i))
  }

  /** The data fits: at most 268 blocks, and enough of them left with the indirect one. */
  ghost predicate WriteFits(v: Vol, geo: Geometry, books: Ledger, i: nat, size: nat)
    requires i < |v.inodes|
  {
    BlocksFor(size) <= MAX_BLOCKS && Spent(BlocksFor(size)) <= LeftFor(v, geo, books, i)
  }

  /**
   * A failing write loses its last block exactly if that one could not be wired in: no indirect
   * block left, or past the 268th.
   */
  ghost predicate WriteLoses(v: Vol, geo: Geometry, books: Ledger, i: nat, size: nat)
    requires i < |v.inodes|
  {
    var left := LeftFor(v, geo, books, i);
    (BlocksFor(size) > INDIRECT && left == INDIRECT + 1) || (BlocksFor(size) > MAX_BLOCKS && left > Spent(MAX_BLOCKS))
  }

  /** fs/ext2/write.c:464-486 for a regular file */
  method Rewrite(vol: Volume, i: nat, data: seq<byte>) returns (rc: Errno)
    requires Mounted(vol) && 1 <= i <= vol.geo.inodes && IsReg(vol.inodes[i])
    modifies vol
    ensures Mounted(vol) && vol.Books() == old(vol.Books())
    ensures Rewritten(old(vol.View()), vol.View(), vol.meta, vol.geo.first, i, data, rc)
    ensures rc == Ok <==> WriteFits(old(vol.View()), vol.geo, vol.Books(), i, |data|)
    ensures rc == ENOSPC ==>
              (vol.View().used == Rest(old(vol.View()), i) <==>
                  !WriteLoses(old(vol.View()), vol.geo, vol.Books(), i, |data|))
  {
    hide Items, Drifts, SuperDrift, Intact, Sound, KeepsOthers, References, FileData, Ref, RawWords, Plain, NoRefs,
         Stopped, Rewritten, Emptied,
      BlocksLeft, Rest;
    ghost var v, meta, first := vol.View(), vol.meta, vol.geo.first;
    var read, n := vol.ReadInode(i);
    FreedStep(v, meta, first, i);
    var n0 := FreeAllBlocks(vol, n);
    ghost var a := Freed(v, i);
    assert Over(vol.View(), i, n0) == a;
    var r, n1 := WriteDataBlocks(vol, i, n0, data);
    ghost var b := Over(vol.View(), i, n1);
    EmptiedKeeps(n);
    if !r.Written? {
      FailStep(v, a, b, meta, first, i, data, r);
      var n2 := FreeAllBlocks(vol, n1);
      var cleared := vol.WriteInode(i, n2);
      assert vol.View() == Freed(b, i);
      LostOne(Rest(v, i), r);
      RewrittenMounted(v, vol.View(), meta, first, i, data, ENOSPC);
      return ENOSPC;
    }
    DoneStep(v, a, b, meta, first, i, data);
    var stored := vol.WriteInode(i, n1.(size := |data|));
    assert vol.View() == Over(b, i, n1.(size := |data|));
    RewrittenMounted(v, vol.View(), meta, first, i, data, Ok);
    return Ok;
  }

  lemma LostOne(used: iset<nat>, r: WriteResult)
    requires used !! Leaked(r)
    ensures used + Leaked(r) == used <==> !r.NotWired?
  {
    if r.NotWired? {
      assert r.blk in Leaked(r) && r.blk !in used;
    }
  }

  lemma EmptiedKeeps(n: Inode)
    ensures Emptied(n).mode == n.mode && Emptied(n).links == n.links
  {
  }

  lemma RewrittenMounted(v: Vol, w: Vol, meta: set<nat>, first: nat, i: nat, data: seq<byte>, rc: Errno)
    requires Rewritten(v, w, meta, first, i, data, rc)
    ensures Intact(w, meta, first)
  {
    hide Intact, Shapely, KeepsOthers, FileData, References, NoRefs, TreeOf;
  }

  // ---- by path ----

  /** ext2_read_file (fs/ext2/mount.c:82-103, fs/ext2/file.c:39-75) */
  method ReadFile(vol: Volume, p: Path) returns (ok: bool, data: seq<byte>)
    requires Mounted(vol) && PathOk(p)
    ensures var f := Walk(Namespace(vol), ROOT, p);
            && (f.At? ==> f.ino < |vol.inodes|)
            && (ok <==> f.At? && IsReg(vol.inodes[f.ino]))
            && (ok ==> data == FileData(vol.inodes[f.ino], vol.blocks))
  {
    hide Items, Intact, Walk, Ref, FileBytes;
    var found, i := PathToInode(vol, p);
    if !found {
      return false, [];
    }
    ok, data := ReadFileIno(vol, i);
  }

  method ReadFileIno(vol: Volume, i: nat) returns (ok: bool, data: seq<byte>)
    requires Mounted(vol) && 1 <= i <= vol.geo.inodes
    ensures ok <==> IsReg(vol.inodes[i])
    ensures ok ==> data == FileData(vol.inodes[i], vol.blocks)
  {
    hide Items, Intact, Ref, FileBytes;
    var read, n := vol.ReadInode(i);
    if !IsReg(n) {
      return false, [];
    }
    RegReadable(vol, i);
    ok, data := ReadData(vol, n, n.size);
  }

  lemma RegReadable(vol: Volume, i: nat)
    requires Mounted(vol) && i < |vol.inodes| && !IsFast(vol.inodes[i])
    ensures Readable(vol, vol.inodes[i])
  {
    hide Ref, Sound, Tidy, Linked, DirShape;
    forall s: nat | s < SLOTS && Ref(vol.inodes[i], vol.blocks, s) != 0
      ensures Ref(vol.inodes[i], vol.blocks, s) < vol.geo.total && Ref(vol.inodes[i], vol.blocks, s) !in vol.meta
    {
      SoundMeans(vol.View(), vol.meta, vol.geo.first, i, s);
    }
  }

  /** More bindings never break a walk that succeeded. */
  lemma {:induction false} WalkExtends(t: Tree, u: Tree, from: nat, p: Path)
    requires Walk(t, from, p).At?
    requires forall d, n :: d in t.names && n in t.names[d] ==>
               d in u.names && n in u.names[d] && u.names[d][n] == t.names[d][n]
    ensures Walk(u, from, p) == Walk(t, from, p)
    decreases |p|
  {
    if p != [] {
      WalkExtends(t, u, t.names[from][p[0]], p[1..]);
    }
  }

  /** A created file is found under its path. */
  lemma CreatedFound(t: Tree, p: Path, i: nat)
    requires ParentOf(t, p).At? && Target(t, p) == Nowhere && ParentOf(t, p).ino in t.names
             && i < |t.kinds| == |t.links|
    ensures Walk(Created(t, ParentOf(t, p).ino, Leaf(p), i), ROOT, p) == At(i)
  {
    hide Walk;
    var d := ParentOf(t, p).ino;
    var u := Created(t, d, Leaf(p), i);
    WalkByParent(t, p);
    WalkByParent(u, p);
    WalkExtends(t, u, ROOT, Parent(p));
  }

  /** What the file will hold: an append puts the new bytes after the old ones. */
  function Final(v: Vol, i: nat, data: seq<byte>, append: bool): seq<byte>
    requires i < |v.inodes|
  {
    if append then FileData(v.inodes[i], v.blocks) + data else data
  }

  /** The outcome of writing regular file i; appending nothing to nothing fails in kmalloc(0) and changes nothing. */
  ghost predicate FileWritten(v: Vol, w: Vol, meta: set<nat>, first: nat, i: nat, data: seq<byte>, append: bool,
      rc: Errno) {
    && i < |v.inodes| && IsReg(v.inodes[i])
    && if append && Final(v, i, data, append) == [] then rc == ENOSPC && w == v
       else Rewritten(v, w, meta, first, i, Final(v, i, data, append), rc)
  }

  /** The write is accepted: not an append that leaves nothing, and the result fits. */
  ghost predicate Accepts(v: Vol, geo: Geometry, books: Ledger, i: nat, data: seq<byte>, append: bool)
    requires i < |v.inodes|
  {
    var all := Final(v, i, data, append);
    !(append && all == []) && WriteFits(v, geo, books, i, |all|)
  }

  /** fs/ext2/write.c:439-486: the part after the path is resolved. */
  method WriteIno(vol: Volume, i: nat, data: seq<byte>, append: bool) returns (rc: Errno)
    requires Mounted(vol) && 1 <= i <= vol.geo.inodes
    modifies vol
    ensures Mounted(vol) && vol.Books() == old(vol.Books())
    ensures rc == EISDIR <==> !old(IsReg(vol.inodes[i]))
    ensures rc == EISDIR ==> vol.View() == old(vol.View())
    ensures rc != EISDIR ==> FileWritten(old(vol.View()), vol.View(), vol.meta, vol.geo.first, i, data, append, rc)
    ensures rc != EISDIR ==> (rc == Ok <==> Accepts(old(vol.View()), vol.geo, vol.Books(), i, data, append))
  {
    hide Items, Intact, Rewritten, FileData, WriteFits, WriteLoses;
    ghost var v := vol.View();
    var read, n := vol.ReadInode(i);
    if !IsReg(n) {
      return EISDIR;
    }
    var all := data;
    if append {
      var ok, before := ReadFileIno(vol, i);
      if |before| + |data| == 0 {
        return ENOSPC;
      }
      all := before + data;
    }
    rc := Rewrite(vol, i, all);
    RewrittenCodes(v, vol.View(), vol.meta, vol.geo.first, i, all, rc);
  }

  lemma RewrittenCodes(v: Vol, w: Vol, meta: set<nat>, first: nat, i: nat, data: seq<byte>, rc: Errno)
    requires Rewritten(v, w, meta, first, i, data, rc)
    ensures rc == Ok || rc == ENOSPC
    ensures Shapely(v) && Shapely(w) && TreeOf(w) == TreeOf(v) && i < |v.inodes| && |w.inodes| == |v.inodes|
            && w.inodes[i].mode == v.inodes[i].mode
    ensures rc == Ok ==> FileData(w.inodes[i], w.blocks) == data
  {
    hide Intact, Shapely, FileData, References, NoRefs, TreeOf;
  }

  /** Reading path p gives data. */
  ghost predicate ReadsAs(vol: Volume, p: Path, data: seq<byte>)
    reads vol
    requires Mounted(vol)
  {
    var f := Walk(Namespace(vol), ROOT, p);
    f.At? && f.ino < |vol.inodes| && IsReg(vol.inodes[f.ino]) && FileData(vol.inodes[f.ino], vol.blocks) == data
  }

  /**
   * Which inode write_file writes, and in what state it finds it: mid is the volume after the file
   * was created, if it was.
   */
  ghost predicate Opened(t: Tree, v: Vol, mid: Vol, meta: set<nat>, first: nat, p: Path, i: nat) {
    match Walk(t, ROOT, p)
    case At(j) => i == j && mid == v
    case Nowhere =>
      && ParentOf(t, p).At? && Outcome(v, mid, meta, first, Ok, ParentOf(t, p).ino, Leaf(p), i, false)
      && i < |mid.inodes| && mid.inodes[i] == Inode(FILE_MODE, 1, 0, 0, NO_POINTERS)
  }

  /** The file is there or can be created. */
  ghost predicate Openable(t: Tree, v: Vol, geo: Geometry, books: Ledger, p: Path) {
    Walk(t, ROOT, p).At? || (ParentOf(t, p).At? && CanCreate(v, geo, books, ParentOf(t, p).ino, Leaf(p), false))
  }

  /** fs/ext2/write.c:432-437: find the file, creating it if it is missing. */
  method OpenOrCreate(vol: Volume, p: Path) returns (rc: Errno, i: nat)
    requires Mounted(vol) && Canonical(p)
    modifies vol
    ensures Mounted(vol) && vol.Books() == old(vol.Books())
    ensures rc == Ok ==> 1 <= i <= vol.geo.inodes && Walk(Namespace(vol), ROOT, p) == At(i)
    ensures rc == Ok ==> Opened(old(Namespace(vol)), old(vol.View()), vol.View(), vol.meta, vol.geo.first, p, i)
    ensures rc != Ok ==> Walk(old(Namespace(vol)), ROOT, p) == Nowhere
    ensures rc == ENOENT <==>
              Walk(old(Namespace(vol)), ROOT, p) == Nowhere && ParentOf(old(Namespace(vol)), p) == Nowhere
    ensures rc == ENOENT ==> vol.View() == old(vol.View())
    ensures rc in {Ok, ENOENT, ENOSPC}
            && (rc == ENOSPC ==> OnlyLeaked(old(vol.View()), vol.View(), vol.meta, vol.geo.first))
    ensures rc != ENOENT ==>
              (rc == ENOSPC <==> !Openable(old(Namespace(vol)), old(vol.View()), vol.geo, vol.Books(), p))
  {
    hide Items, Drifts, SuperDrift, Intact, Walk, Outcome, OnlyLeaked, Shapely, Namespace, CanCreate;
    ghost var t, v := Namespace(vol), vol.View();
    NamespaceIs(vol);
    var found;
    found, i := PathToInode(vol, p);
    if found {
      return Ok, i;
    }
    ghost var new_;
    rc, new_ := Create(vol, p, false);
    if rc != Ok {
      if rc != ENOENT {
        OutcomeSpace(v, vol.View(), vol.meta, vol.geo.first, rc, ParentOf(t, p).ino, Leaf(p), new_, false);
      }
      return;
    }
    NamespaceIs(vol);
    OutcomeFound(v, vol.View(), vol.meta, vol.geo.first, t, p, new_);
    found, i := PathToInode(vol, p);
  }

  lemma NamespaceIs(vol: Volume)
    requires Mounted(vol)
    ensures Shapely(vol.View()) && Namespace(vol) == TreeOf(vol.View())
  {
    hide Fs, Tidy, Linked;
    FsShapely(vol.View(), vol.meta, vol.geo.first);
  }

  lemma OutcomeSpace(v: Vol, w: Vol, meta: set<nat>, first: nat, rc: Errno, d: nat, leaf: Name, i: nat, isDir: bool)
    requires Outcome(v, w, meta, first, rc, d, leaf, i, isDir) && rc != Ok
    ensures rc == ENOSPC && OnlyLeaked(v, w, meta, first)
  {
    hide OnlyLeaked, Shapely;
  }

  lemma OutcomeFound(v: Vol, w: Vol, meta: set<nat>, first: nat, t: Tree, p: Path, i: nat)
    requires Shapely(v) && t == TreeOf(v) && ParentOf(t, p).At? && Walk(t, ROOT, p) == Nowhere
    requires Outcome(v, w, meta, first, Ok, ParentOf(t, p).ino, Leaf(p), i, false)
    ensures Shapely(w) && Walk(TreeOf(w), ROOT, p) == At(i) && i < |v.inodes| == |w.inodes|
  {
    hide Shapely, Walk, Names, KeepsInode, Created;
    CreatedFound(t, p, i);
  }

  /** ext2_write_file (fs/ext2/write.c:428-487) */
  method WriteFile(vol: Volume, p: Path, data: seq<byte>, append: bool)
    returns (rc: Errno, ghost mid: Vol, ghost i: nat)
    requires Mounted(vol) && Canonical(p)
    modifies vol
    ensures Mounted(vol) && vol.Books() == old(vol.Books())
    ensures rc == ENOENT <==>
              Walk(old(Namespace(vol)), ROOT, p) == Nowhere && ParentOf(old(Namespace(vol)), p) == Nowhere
    ensures rc == ENOENT ==> vol.View() == old(vol.View())
    ensures rc == EISDIR ==> vol.View() == old(vol.View()) && Walk(old(Namespace(vol)), ROOT, p) == At(i)
                             && i < |vol.inodes| && !IsReg(vol.inodes[i])
    ensures rc in {Ok, ENOENT, EISDIR, ENOSPC}
    ensures rc == Ok ==> Opened(old(Namespace(vol)), old(vol.View()), mid, vol.meta, vol.geo.first, p, i)
    ensures rc == Ok ==> FileWritten(mid, vol.View(), vol.meta, vol.geo.first, i, data, append, rc)
    ensures rc == Ok ==> i < |mid.inodes| && ReadsAs(vol, p, Final(mid, i, data, append))
    ensures rc == Ok ==> Openable(old(Namespace(vol)), old(vol.View()), vol.geo, vol.Books(), p)
                         && Accepts(mid, vol.geo, vol.Books(), i, data, append)
    ensures rc == ENOSPC ==>
              || (&& !Openable(old(Namespace(vol)), old(vol.View()), vol.geo, vol.Books(), p)
                  && OnlyLeaked(old(vol.View()), vol.View(), vol.meta, vol.geo.first))
              || (&& Opened(old(Namespace(vol)), old(vol.View()), mid, vol.meta, vol.geo.first, p, i)
                  && FileWritten(mid, vol.View(), vol.meta, vol.geo.first, i, data, append, rc)
                  && i < |mid.inodes| && !Accepts(mid, vol.geo, vol.Books(), i, data, append))
  {
    hide Items, Drifts, SuperDrift, Intact, Walk, Outcome, OnlyLeaked, Opened, FileWritten, Shapely, Namespace, ReadsAs,
         Final, Openable, Accepts;
    mid, i := vol.View(), 0;
    var ino;
    rc, ino := OpenOrCreate(vol, p);
    if rc != Ok {
      return;
    }
    mid, i := vol.View(), ino;
    NamespaceIs(vol);
    rc := WriteIno(vol, ino, data, append);
    if rc == EISDIR {
      OpenedOld(old(Namespace(vol)), old(vol.View()), mid, vol.meta, vol.geo.first, p, ino);
    } else {
      WrittenReads(vol, mid, p, ino, data, append, rc);
    }
  }

  /** A file just created is regular, so only an existing one can be refused. */
  lemma OpenedOld(t: Tree, v: Vol, mid: Vol, meta: set<nat>, first: nat, p: Path, i: nat)
    requires Opened(t, v, mid, meta, first, p, i) && i < |mid.inodes| && !IsReg(mid.inodes[i])
    ensures Walk(t, ROOT, p) == At(i) && mid == v
  {
    hide Walk, Outcome;
  }

  lemma WrittenReads(vol: Volume, mid: Vol, p: Path, i: nat, data: seq<byte>, append: bool, rc: Errno)
    requires Mounted(vol) && i < |mid.inodes| && IsReg(mid.inodes[i]) && Shapely(mid)
             && Walk(TreeOf(mid), ROOT, p) == At(i)
    requires FileWritten(mid, vol.View(), vol.meta, vol.geo.first, i, data, append, rc)
    ensures rc == Ok || rc == ENOSPC
    ensures rc == Ok ==> ReadsAs(vol, p, Final(mid, i, data, append))
  {
    hide Items, Intact, Walk, Rewritten, FileData, Shapely;
    if !(append && Final(mid, i, data, append) == []) {
      RewrittenCodes(mid, vol.View(), vol.meta, vol.geo.first, i, Final(mid, i, data, append), rc);
    }
  }
}
