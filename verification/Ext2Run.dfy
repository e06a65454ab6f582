/**
 * Whole runs of fs/ext2/write.c: from a freshly formatted volume, every sequence of
 * creating, writing, linking, renaming and removing files, directories and symbolic
 * links keeps the volume intact, as long as no short link spells a block number.
 */
module Ext2Run {
  import opened Bytes
  import opened Ext2Refs
  import opened Ext2Volume
  import opened Ext2Sound
  import opened Ext2Blocks
  import opened Ext2Data
  import opened Ext2DirBlock
  import opened Ext2DirScan
  import opened Ext2Dir
  import opened Ext2Tree
  import opened Ext2Names
  import opened Ext2Write
  import opened Ext2Unlink
  import opened Ext2Rename
  import opened Ext2File
  import opened Ext2Symlink
  import opened Ext2Reach
  import opened Ext2Roots

  // ---- the start ----

  /** A volume with no inode in use; the metadata blocks are marked. */
  ghost predicate Blank(v: Vol, meta: set<nat>, first: nat) {
    && 0 < first && |v.blocks| < 0x1_0000_0000 && ROOT < |v.inodes| < 0x1_0000_0000
    && (forall m :: m in meta ==> m < first || m in v.used)
    && forall i :: 0 <= i < |v.inodes| ==> v.inodes[i] == ZERO_INODE
  }

  lemma BlankSound(v: Vol, meta: set<nat>, first: nat)
    requires Blank(v, meta, first)
    ensures Fs(v, meta, first) && Tidy(v)
  {
    assert Owns(v.inodes, v.blocks, map[]);
    assert SoundBy(v, meta, first, map[]);
  }

  /** A formatted volume: one directory, the root, in block b. */
  ghost function Formatted(v: Vol, b: nat): Vol
    requires ROOT < |v.inodes| < 0x1_0000_0000 && b < |v.blocks| < 0x1_0000_0000
  {
    WithNewDir(v.(iused := v.iused + iset{ROOT}), ROOT, b, ROOT)
  }

  lemma RootLinked(t: Tree)
    requires ROOT < |t.kinds| == |t.links| && t.names == map[ROOT := Dots(ROOT, ROOT)]
    requires t.links[ROOT] == 2
    requires forall i :: 0 <= i < |t.kinds| ==> t.kinds[i] == if i == ROOT then Directory else Free
    requires DOT != DOTDOT
    ensures Linked(t)
  {
    assert forall d, n :: !HasEntry(t, d, n);
    assert Entries(t, ROOT) == {};
    assert ChildDirs(t, ROOT) == {};
  }

  /** A freshly formatted volume is intact. */
  lemma FormattedIntact(v: Vol, meta: set<nat>, first: nat, b: nat)
    requires Blank(v, meta, first) && b !in v.used && first <= b < |v.blocks|
    ensures Intact(Formatted(v, b), meta, first) && AllSafe(Formatted(v, b))
  {
    hide Sound, Names, DirShape, Linked, KeepsOthers, NewDirInode, DotsBlock;
    var a := v.(iused := v.iused + iset{ROOT});
    var w := Formatted(v, b);
    BlankSound(a, meta, first);
    NewDirStep(a, meta, first, ROOT, b, ROOT);
    NewDirShape(a, ROOT, b, ROOT);
    BlankTree(a);
    RootLinked(TreeOf(w));
    RootTidy(a, b);
  }

  lemma BlankTree(v: Vol)
    requires Shapely(v) && forall i :: 0 <= i < |v.inodes| ==> v.inodes[i] == ZERO_INODE
    ensures TreeOf(v).names == map[] && |TreeOf(v).kinds| == |TreeOf(v).links| == |v.inodes|
    ensures forall i :: 0 <= i < |v.inodes| ==> TreeOf(v).kinds[i] == Free
  {
    hide DirShape, Names;
  }

  lemma RootTidy(a: Vol, b: nat)
    requires ROOT < |a.inodes| < 0x1_0000_0000 && b < |a.blocks| < 0x1_0000_0000 && ROOT in a.iused
    requires forall i :: 0 <= i < |a.inodes| ==> a.inodes[i] == ZERO_INODE
    ensures Tidy(WithNewDir(a, ROOT, b, ROOT)) && AllSafe(WithNewDir(a, ROOT, b, ROOT))
  {
    hide DotsBlock;
    var w := WithNewDir(a, ROOT, b, ROOT);
    forall i: nat | i < |w.inodes| ensures TidyAt(w, i) && Safe(w.inodes[i], |w.blocks|) {
    }
  }

  // ---- runs ----

  /** No word of a fast link's text is the number of a block of the volume. */
  predicate Safe(n: Inode, total: nat) {
    IsFast(n) ==> forall k :: 0 <= k <= INDIRECT ==> n.ptr[k] == 0 || n.ptr[k] >= total
  }

  ghost predicate AllSafe(v: Vol) { forall i: nat :: i < |v.inodes| ==> Safe(v.inodes[i], |v.blocks|) }

  ghost predicate Inside(meta: set<nat>, total: nat) { forall m :: m in meta ==> m < total }

  /**
   * A safe inode is harmless to free: regular files, directories, long links, and short links whose
   * text spells no block.
   */
  lemma SafeHarmless(v: Vol, meta: set<nat>, first: nat, i: nat)
    requires Sound(v, meta, first) && i < |v.inodes| && Safe(v.inodes[i], |v.blocks|) && Inside(meta, |v.blocks|)
    ensures Harmless(v, meta, first, i)
  {
    hide Sound;
    if IsFast(v.inodes[i]) {
      forall r: nat | r in RawWords(v.inodes[i], v.blocks) ensures Spare(v, meta, first, i, r) {
        OutsideWords(v.inodes[i], v.blocks, r);
        OutsideSpare(v, meta, first, i, r);
      }
    } else {
      PlainHarmless(v, meta, first, i);
    }
  }

  lemma OutsideWords(n: Inode, blocks: seq<Block>, r: nat)
    requires IsFast(n) && Safe(n, |blocks|) && r in RawWords(n, blocks)
    ensures r >= |blocks|
  {
  }

  lemma OutsideSpare(v: Vol, meta: set<nat>, first: nat, i: nat, r: nat)
    requires Sound(v, meta, first) && Inside(meta, |v.blocks|) && r >= |v.blocks|
    ensures Spare(v, meta, first, i, r)
  {
    hide Sound, Ref;
    forall j: nat | j < |v.inodes| ensures !RefersTo(v.inodes[j], v.blocks, r) {
      forall s: nat | s < SLOTS && Ref(v.inodes[j], v.blocks, s) != 0
          ensures Ref(v.inodes[j], v.blocks, s) < |v.blocks| {
        SoundMeans(v, meta, first, j, s);
      }
    }
  }

  lemma SafeTargetInode(v: Vol, meta: set<nat>, first: nat, i: nat)
    requires Intact(v, meta, first) && AllSafe(v) && i < |v.inodes| && Inside(meta, |v.blocks|)
    ensures Harmless(v, meta, first, i)
  {
    hide Harmless, Sound;
    SafeHarmless(v, meta, first, i);
  }

  /** An inode the tree calls a directory or free is no symbolic link. */
  lemma KindNoLink(w: Vol, j: nat)
    requires Shapely(w) && j < |w.inodes| && (j in TreeOf(w).names || TreeOf(w).kinds[j] == Free)
    ensures !IsLnk(w.inodes[j])
  {
    hide DirShape, Names;
  }

  lemma SafeKept(v: Vol, w: Vol, s: set<nat>)
    requires AllSafe(v) && KeepsAllBut(v, w, s)
    requires forall j: nat :: j in s && j < |w.inodes| ==> Safe(w.inodes[j], |w.blocks|)
    ensures AllSafe(w)
  {
    forall j: nat | j < |w.inodes| ensures Safe(w.inodes[j], |w.blocks|) {
      if j !in s { assert KeepsInode(v, w, j); }
    }
  }

  lemma CreatedSafe(v: Vol, w: Vol, meta: set<nat>, first: nat, rc: Errno, d: nat, leaf: Name, i: nat, isDir: bool)
    requires AllSafe(v) && Outcome(v, w, meta, first, rc, d, leaf, i, isDir)
    requires rc == Ok && !isDir && i < |w.inodes| ==> w.inodes[i] == Inode(FILE_MODE, 1, 0, 0, NO_POINTERS)
    ensures AllSafe(w)
  {
    hide Shapely, KeepsAllBut, Fs, TreeOf, AllSafe, KeepsOthers;
    if rc == Ok {
      SameSize(v, w, {i, d});
      TreeSize(v);
      MadeKinds(TreeOf(v), d, leaf, i);
      KindNoLink(w, d);
      if isDir {
        KindNoLink(w, i);
      }
      SafeKept(v, w, {i, d});
    } else {
      LeakedSafe(v, w, meta, first);
    }
  }

  lemma MadeKinds(t: Tree, d: nat, leaf: Name, i: nat)
    requires d in t.names && d < |t.links| && i < |t.kinds| == |t.links|
    ensures d in Created(t, d, leaf, i).names
    ensures d in MadeDir(t, d, leaf, i).names && i in MadeDir(t, d, leaf, i).names
  {
  }

  lemma SameSize(v: Vol, w: Vol, s: set<nat>)
    requires KeepsAllBut(v, w, s)
    ensures |w.inodes| == |v.inodes| && |w.blocks| == |v.blocks|
  {
  }

  lemma FileGoneSafe(v: Vol, w: Vol, meta: set<nat>, first: nat, d: nat, leaf: Name, i: nat)
    requires AllSafe(v) && FileGone(v, w, meta, first, d, leaf, i)
    ensures AllSafe(w)
  {
    hide Shapely, KeepsAllBut, Intact, Harmless, RawWords, TreeOf, Roomy;
    SameSize(v, w, {d, i});
    DroppedKinds(TreeOf(v), d, leaf);
    assert Safe(v.inodes[i], |v.blocks|);
    hide AllSafe;
    if d < |w.inodes| { KindNoLink(w, d); }
    SafeKept(v, w, {d, i});
  }

  lemma DirGoneSafe(v: Vol, w: Vol, d: nat, leaf: Name, i: nat)
    requires AllSafe(v) && DirGone(v, w, d, leaf, i)
    ensures AllSafe(w)
  {
    hide Shapely, KeepsAllBut, TreeOf, Roomy, AllSafe, References;
    SameSize(v, w, {d, i});
    GoneKinds(TreeOf(v), d, leaf, i);
    KindNoLink(w, i);
    if d < |w.inodes| && d != i { KindNoLink(w, d); }
    SafeKept(v, w, {d, i});
  }

  lemma GoneSafe(t: Tree, v: Vol, w: Vol, meta: set<nat>, first: nat, p: Path)
    requires AllSafe(v) && Gone(t, v, w, meta, first, p)
    ensures AllSafe(w)
  {
    hide FileGone, DirGone, Intact, Walk, AllSafe;
    var d, i := ParentOf(t, p).ino, Target(t, p).ino;
    if i in t.names {
      DirGoneSafe(v, w, d, Leaf(p), i);
    } else {
      FileGoneSafe(v, w, meta, first, d, Leaf(p), i);
    }
  }

  lemma DroppedKinds(t: Tree, d: nat, leaf: Name)
    requires HasEntry(t, d, leaf) && t.names[d][leaf] < |t.links| == |t.kinds| && t.links[t.names[d][leaf]] > 0
    ensures d in Unlinked(t, d, leaf).names
  {
  }

  lemma GoneKinds(t: Tree, d: nat, leaf: Name, i: nat)
    requires HasEntry(t, d, leaf) && t.names[d][leaf] == i && d < |t.links| && i < |t.kinds| == |t.links|
    ensures i < |RemovedDir(t, d, leaf).kinds| && RemovedDir(t, d, leaf).kinds[i] == Free
    ensures d != i ==> d in RemovedDir(t, d, leaf).names
  {
  }

  lemma MovedKeepsDirs(t: Tree, od: nat, on: Name, nd: nat, nn: Name)
    requires HasEntry(t, od, on) && nd in t.names && od < |t.links| && nd < |t.links|
    ensures forall j :: j in t.names ==> j in Moved(t, od, on, nd, nn).names
  {
  }

  lemma MovedSafe(v: Vol, w: Vol, od: nat, on: Name, nd: nat, nn: Name, i: nat)
    requires AllSafe(v) && MovedTo(v, w, od, on, nd, nn, i)
    ensures AllSafe(w)
  {
    hide Shapely, KeepsAllBut, TreeOf, AllSafe, Moved;
    var s := if i in TreeOf(v).names then {od, nd, i} else {od, nd};
    SameSize(v, w, s);
    MovedKeepsDirs(TreeOf(v), od, on, nd, nn);
    forall j: nat | j in s && j < |w.inodes| ensures Safe(w.inodes[j], |w.blocks|) {
      KindNoLink(w, j);
    }
    SafeKept(v, w, s);
  }

  /** Opening, then rewriting a file makes no link. */
  lemma WrittenSafe(t: Tree, v: Vol, mid: Vol, w: Vol, meta: set<nat>, first: nat, p: Path, i: nat, data: seq<byte>,
      append: bool, rc: Errno)
    requires AllSafe(v) && Opened(t, v, mid, meta, first, p, i) && FileWritten(mid, w, meta, first, i, data, append, rc)
    ensures AllSafe(w)
  {
    hide Outcome, AllSafe, Walk, Intact, Shapely, TreeOf, FileData, KeepsOthers;
    if Walk(t, ROOT, p) == Nowhere {
      CreatedSafe(v, mid, meta, first, Ok, ParentOf(t, p).ino, Leaf(p), i, false);
    }
    if w != mid {
      RewrittenSafe(mid, w, i);
    }
  }

  lemma RewrittenSafe(v: Vol, w: Vol, i: nat)
    requires AllSafe(v) && i < |v.inodes| && KeepsOthers(v, w, i) && IsReg(v.inodes[i])
             && w.inodes[i].mode == v.inodes[i].mode
    ensures AllSafe(w)
  {
    hide Body;
    forall j: nat | j < |w.inodes| ensures Safe(w.inodes[j], |w.blocks|) {
      if j != i { assert KeepsInode(v, w, j); }
    }
  }

  lemma LinkedSafe(v: Vol, w: Vol, meta: set<nat>, first: nat, d: nat, leaf: Name, i: nat)
    requires AllSafe(v) && NameAdded(v, w, meta, first, d, leaf, i) && v.inodes[i].links < 0xFFFF
    ensures AllSafe(w)
  {
    hide Shapely, KeepsAllBut, Intact, TreeOf, Body;
    SameSize(v, w, {d, i});
    assert d in TreeOf(w).names;
    assert Safe(v.inodes[i], |v.blocks|);
    hide AllSafe;
    if d < |w.inodes| { KindNoLink(w, d); }
    SafeKept(v, w, {d, i});
  }

  lemma RenamedSafe(t: Tree, v: Vol, mid: Vol, w: Vol, meta: set<nat>, first: nat, p: Path, q: Path)
    requires AllSafe(v) && Renamed(t, v, mid, w, meta, first, p, q)
    ensures AllSafe(w)
  {
    hide AllSafe, Gone, MovedTo, Walk;
    if w != v {
      if Target(t, q).At? {
        GoneSafe(t, v, mid, meta, first, q);
      }
      MovedSafe(mid, w, ParentOf(t, p).ino, Leaf(p), ParentOf(t, q).ino, Leaf(q), Target(t, p).ino);
    }
  }

  /** A target that is stored in blocks, or whose packed words are outside the volume. */
  predicate SafeTarget(target: seq<byte>, total: nat) {
    |target| <= MAX_INLINE ==> Safe(FastInode(target), total)
  }

  lemma SymlinkedSafe(v: Vol, w: Vol, meta: set<nat>, first: nat, d: nat, leaf: Name, i: nat, target: seq<byte>)
    requires AllSafe(v) && LinkCreated(v, w, meta, first, d, leaf, i, target) && SafeTarget(target, |v.blocks|)
    ensures AllSafe(w)
  {
    hide Shapely, KeepsAllBut, Intact, TreeOf, AllSafe, LinkText, FastInode;
    SameSize(v, w, {i, d});
    TreeSize(v);
    MadeKinds(TreeOf(v), d, leaf, i);
    KindNoLink(w, d);
    SafeKept(v, w, {i, d});
  }

  lemma UndoneSteady(v: Vol, x: Vol, w: Vol, meta: set<nat>, first: nat, i: nat)
    requires AllSafe(v) && LinkUndone(v, x, w, meta, first, i) && Safe(x.inodes[i], |v.blocks|)
             && Inside(meta, |v.blocks|)
    ensures AllSafe(w) && Intact(w, meta, first)
  {
    hide Shapely, Intact, TreeOf, RawWords, Harmless, KeepsInode, Sound, OnlyLeaked;
    SafeHarmless(x, meta, first, i);
  }

  // ---- replaying a run ----

  datatype Op =
    | CreateOp(p: Path, isDir: bool)
    | WriteOp(p: Path, data: seq<byte>, append: bool)
    | LinkOp(p: Path, q: Path)
    | UnlinkOp(p: Path, isDir: bool)
    | RenameOp(p: Path, q: Path)
    | SymlinkOp(target: seq<byte>, p: Path)
  {
    /** Paths as the VFS hands them down, and no short target that spells a block of the volume. */
    predicate Ok(total: nat) {
      match this
      case SymlinkOp(target, p) => Canonical(p) && SafeTarget(target, total)
      case CreateOp(p, _) => Canonical(p)
      case WriteOp(p, _, _) => Canonical(p)
      case LinkOp(p, q) => PathOk(p) && Canonical(q)
      case UnlinkOp(p, _) => Canonical(p)
      case RenameOp(p, q) => Canonical(p) && Canonical(q)
    }
  }

  /** A mounted volume whose short links, if any, are safe. */
  ghost predicate Steady(vol: Volume)
    reads vol
  {
    Mounted(vol) && AllSafe(vol.View()) && Inside(vol.meta, vol.geo.total)
  }

  /** The link count of p is at its 16-bit limit. */
  ghost predicate Saturated(vol: Volume, p: Path)
    reads vol
    requires Mounted(vol)
  {
    var f := Walk(Namespace(vol), ROOT, p);
    f.At? && f.ino < |vol.inodes| && vol.inodes[f.ino].links == 0xFFFF
  }

  method DoCreate(vol: Volume, p: Path, isDir: bool)
    requires Steady(vol) && Canonical(p)
    modifies vol
    ensures Steady(vol) && vol.Books() == old(vol.Books())
    ensures Rooted(old(Namespace(vol))) ==> Rooted(Namespace(vol))
  {
    hide Items, Drifts, SuperDrift, Intact, Walk, Outcome, AllSafe, Namespace, Rooted;
    NamespaceIs(vol);
    ghost var v, t := vol.View(), Namespace(vol);
    var rc, i := Create(vol, p, isDir);
    if rc == ENOENT || rc == EEXIST {
      assert vol.View() == v;
    } else {
      CreatedSafe(v, vol.View(), vol.meta, vol.geo.first, rc, ParentOf(t, p).ino, Leaf(p), i, isDir);
      if Rooted(t) {
        CreateRoots(v, vol.View(), vol.meta, vol.geo.first, rc, ParentOf(t, p).ino, Leaf(p), i, isDir);
      }
    }
    NamespaceIs(vol);
  }

  lemma NamespaceIs(vol: Volume)
    requires Mounted(vol)
    ensures Shapely(vol.View()) && Namespace(vol) == TreeOf(vol.View())
  {
    hide Intact, Items, TreeOf, Linked;
    IntactTree(vol.View(), vol.meta, vol.geo.first);
  }

  method DoWrite(vol: Volume, p: Path, data: seq<byte>, append: bool)
    requires Steady(vol) && Canonical(p)
    modifies vol
    ensures Steady(vol) && vol.Books() == old(vol.Books())
    ensures Rooted(old(Namespace(vol))) ==> Rooted(Namespace(vol))
  {
    hide Items, Drifts, SuperDrift, Intact, Walk, Opened, FileWritten, AllSafe, Namespace, OnlyLeaked, ReadsAs, Rooted;
    NamespaceIs(vol);
    ghost var v, t := vol.View(), Namespace(vol);
    var rc, mid, i := WriteFile(vol, p, data, append);
    if rc == ENOSPC && OnlyLeaked(v, vol.View(), vol.meta, vol.geo.first) {
      LeakedSafe(v, vol.View(), vol.meta, vol.geo.first);
      LeakedIntact(v, vol.View(), vol.meta, vol.geo.first);
    } else if rc == Errno.Ok || rc == ENOSPC {
      WrittenSafe(t, v, mid, vol.View(), vol.meta, vol.geo.first, p, i, data, append, rc);
      if Rooted(t) {
        WriteRoots(t, v, mid, vol.View(), vol.meta, vol.geo.first, p, i, data, append, rc);
      }
    }
    NamespaceIs(vol);
  }

  lemma LeakedSafe(v: Vol, w: Vol, meta: set<nat>, first: nat)
    requires AllSafe(v) && OnlyLeaked(v, w, meta, first)
    ensures AllSafe(w)
  {
    hide KeepsInode, Fs;
  }

  /** link() on a file whose count has room. */
  method DoLink(vol: Volume, p: Path, q: Path)
    requires Steady(vol) && PathOk(p) && Canonical(q) && !Saturated(vol, p)
    modifies vol
    ensures Steady(vol) && vol.Books() == old(vol.Books())
    ensures Rooted(old(Namespace(vol))) ==> Rooted(Namespace(vol))
  {
    hide Items, Drifts, SuperDrift, Intact, Walk, NameAdded, AllSafe, Namespace, OnlyLeaked, Rooted;
    NamespaceIs(vol);
    ghost var v, t := vol.View(), Namespace(vol);
    WalkKind(vol, p);
    ghost var f := Walk(t, ROOT, p);
    assert f.At? ==> v.inodes[f.ino].links != 0xFFFF;
    LinkBound(v, vol.meta, vol.geo.first);
    var rc := Link(vol, p, q);
    LinkSteady(t, v, vol.View(), vol.meta, vol.geo.first, p, q, rc);
    if Rooted(t) && vol.View() != v {
      LinkSteadyRoots(t, v, vol.View(), vol.meta, vol.geo.first, p, q);
    }
    NamespaceIs(vol);
  }

  lemma LinkSteadyRoots(t: Tree, v: Vol, w: Vol, meta: set<nat>, first: nat, p: Path, q: Path)
    requires Intact(v, meta, first) && Shapely(v) && t == TreeOf(v) && Canonical(q) && Rooted(t)
    requires Walk(t, ROOT, p).At? ==> Walk(t, ROOT, p).ino < |v.inodes| && v.inodes[Walk(t, ROOT, p).ino].links < 0xFFFF
    requires LinkMade(t, v, w, meta, first, p, q) || OnlyLeaked(v, w, meta, first)
    ensures Shapely(w) && Rooted(TreeOf(w))
  {
    hide Intact, Walk, NameAdded, OnlyLeaked, Rooted, TreeOf, Shapely;
    if OnlyLeaked(v, w, meta, first) {
      LeakRoots(v, w, meta, first);
    } else {
      LinkRoots(t, v, w, meta, first, p, q);
    }
  }

  lemma LinkBound(v: Vol, meta: set<nat>, first: nat)
    requires Intact(v, meta, first)
    ensures forall i: nat :: i < |v.inodes| ==> v.inodes[i].links <= 0xFFFF
  {
    hide Fs, Linked;
    forall i: nat | i < |v.inodes| ensures v.inodes[i].links <= 0xFFFF {
      assert TidyAt(v, i);
    }
  }

  lemma LinkSteady(t: Tree, v: Vol, w: Vol, meta: set<nat>, first: nat, p: Path, q: Path, rc: Errno)
    requires Intact(v, meta, first) && AllSafe(v)
    requires Walk(t, ROOT, p).At? ==> Walk(t, ROOT, p).ino < |v.inodes| && v.inodes[Walk(t, ROOT, p).ino].links < 0xFFFF
    requires LinkCode(t, p, q) != Errno.Ok ==> w == v
    requires LinkCode(t, p, q) == Errno.Ok ==>
               (rc == Errno.Ok && LinkMade(t, v, w, meta, first, p, q)) || OnlyLeaked(v, w, meta, first)
    ensures AllSafe(w) && Intact(w, meta, first)
  {
    hide Walk, AllSafe, Fs, Linked, LinkCode, Intact;
    if w != v {
      if OnlyLeaked(v, w, meta, first) {
        LeakedSafe(v, w, meta, first);
        LeakedIntact(v, w, meta, first);
      } else {
        LinkedSafe(v, w, meta, first, ParentOf(t, q).ino, Leaf(q), Walk(t, ROOT, p).ino);
      }
    }
  }

  method DoUnlink(vol: Volume, p: Path, isDir: bool)
    requires Steady(vol) && Canonical(p)
    modifies vol
    ensures Steady(vol) && vol.Books() == old(vol.Books())
    ensures Rooted(old(Namespace(vol))) ==> Rooted(Namespace(vol))
  {
    hide Items, Drifts, SuperDrift, Intact, Walk, Gone, AllSafe, Namespace, Rooted, EmptyDir;
    NamespaceIs(vol);
    ghost var v, t := vol.View(), Namespace(vol);
    HarmlessTarget(vol, p);
    var rc := Unlink(vol, p, isDir);
    if rc == Errno.Ok {
      GoneSafe(t, v, vol.View(), vol.meta, vol.geo.first, p);
      GoneIntact(t, v, vol.View(), vol.meta, vol.geo.first, p);
      if Rooted(t) {
        GoneRoots(t, v, vol.View(), vol.meta, vol.geo.first, p, isDir);
      }
    }
    NamespaceIs(vol);
  }

  lemma GoneRoots(t: Tree, v: Vol, w: Vol, meta: set<nat>, first: nat, p: Path, isDir: bool)
    requires Intact(v, meta, first) && Shapely(v) && t == TreeOf(v) && Rooted(t)
    requires UnlinkCode(t, p, isDir) == Errno.Ok && Gone(t, v, w, meta, first, p)
    ensures Shapely(w) && Rooted(TreeOf(w))
  {
    hide Intact, Walk, Gone, Rooted, TreeOf, Shapely, EmptyDir, Less;
    GoneLess(t, v, w, meta, first, p);
    LessRooted(t, TreeOf(w), ParentOf(t, p).ino, Leaf(p));
  }

  lemma HarmlessTarget(vol: Volume, p: Path)
    requires Steady(vol)
    ensures HarmlessAt(vol.View(), vol.meta, vol.geo.first, Target(Namespace(vol), p))
  {
    hide Items, Intact, Walk, Harmless, AllSafe;
    var f := Target(Namespace(vol), p);
    if f.At? {
      WalkKind(vol, p);
      SafeTargetInode(vol.View(), vol.meta, vol.geo.first, f.ino);
    }
  }

  lemma GoneIntact(t: Tree, v: Vol, w: Vol, meta: set<nat>, first: nat, p: Path)
    requires Intact(v, meta, first) && AllSafe(v) && Gone(t, v, w, meta, first, p)
    requires Inside(meta, |v.blocks|)
    ensures Intact(w, meta, first)
  {
    hide Walk, AllSafe, Intact, DirGone, Harmless, Shapely, TreeOf, KeepsAllBut, Roomy, RawWords;
    var i := Target(t, p).ino;
    if i !in t.names {
      SafeTargetInode(v, meta, first, i);
    }
  }

  method DoRename(vol: Volume, p: Path, q: Path)
    requires Steady(vol) && Canonical(p) && Canonical(q)
    modifies vol
    ensures Steady(vol) && vol.Books() == old(vol.Books())
    ensures Rooted(old(Namespace(vol))) && !Below(old(Namespace(vol)), p, q) ==> Rooted(Namespace(vol))
  {
    hide Items, Drifts, SuperDrift, Intact, Walk, Renamed, AllSafe, HarmlessAt, OnlyLeaked, RenameCode, Namespace,
         Rooted,
         Below;
    NamespaceIs(vol);
    ghost var v, t := vol.View(), Namespace(vol);
    HarmlessTarget(vol, q);
    var rc, mid := Rename(vol, p, q);
    if vol.View() != v {
      if rc == Errno.Ok {
        RenamedSafe(t, v, mid, vol.View(), vol.meta, vol.geo.first, p, q);
        if Rooted(t) {
          RenameRoots(t, v, mid, vol.View(), vol.meta, vol.geo.first, p, q);
        }
      } else {
        LeakedSafe(v, vol.View(), vol.meta, vol.geo.first);
        LeakedIntact(v, vol.View(), vol.meta, vol.geo.first);
      }
    }
    NamespaceIs(vol);
  }

  method DoSymlink(vol: Volume, target: seq<byte>, p: Path)
    requires Steady(vol) && Canonical(p) && SafeTarget(target, vol.geo.total)
    modifies vol
    ensures Steady(vol) && vol.Books() == old(vol.Books())
    ensures Rooted(old(Namespace(vol))) ==> Rooted(Namespace(vol))
  {
    hide Items, Drifts, SuperDrift, Intact, Walk, AllSafe, OnlyLeaked, LinkCreated, LinkUndone, SymlinkCode, Namespace,
         FastInode, LinkFits, InodesLeft, Rooted;
    NamespaceIs(vol);
    ghost var v, t := vol.View(), Namespace(vol);
    ghost var meta, first := vol.meta, vol.geo.first;
    var rc, i, x := Symlink(vol, target, p);
    if SymlinkCode(t, target, p) == Errno.Ok {
      if rc == Errno.Ok {
        SymlinkedSafe(v, vol.View(), meta, first, ParentOf(t, p).ino, Leaf(p), i, target);
        SymlinkedIntact(v, vol.View(), meta, first, ParentOf(t, p).ino, Leaf(p), i, target);
        if Rooted(t) {
          SymlinkRoots(v, vol.View(), meta, first, ParentOf(t, p).ino, Leaf(p), i, target);
        }
      } else if OnlyLeaked(v, vol.View(), meta, first) {
        LeakedSafe(v, vol.View(), meta, first);
        LeakedIntact(v, vol.View(), meta, first);
      } else {
        UndoneSteady(v, x, vol.View(), meta, first, i);
        UndoneTree(v, x, vol.View(), meta, first, i);
      }
    }
    NamespaceIs(vol);
  }

  lemma UndoneTree(v: Vol, x: Vol, w: Vol, meta: set<nat>, first: nat, i: nat)
    requires LinkUndone(v, x, w, meta, first, i)
    ensures Shapely(v) && Shapely(w) && TreeOf(w) == TreeOf(v)
  {
    hide Retired, Fs, KeepsOthers, Shapely, TreeOf, Intact, Harmless, OnlyLeaked;
  }

  lemma SymlinkRoots(v: Vol, w: Vol, meta: set<nat>, first: nat, d: nat, leaf: Name, i: nat, target: seq<byte>)
    requires Intact(v, meta, first) && LinkCreated(v, w, meta, first, d, leaf, i, target) && Proper(leaf)
    requires Shapely(v) && Rooted(TreeOf(v))
    ensures Shapely(w) && Rooted(TreeOf(w))
  {
    hide Intact, Outcome, LinkText, Rooted, TreeOf, Shapely, StoredAs;
    CreateRoots(v, w, meta, first, Errno.Ok, d, leaf, i, false);
  }

  lemma SymlinkedIntact(v: Vol, w: Vol, meta: set<nat>, first: nat, d: nat, leaf: Name, i: nat, target: seq<byte>)
    requires LinkCreated(v, w, meta, first, d, leaf, i, target)
    ensures Intact(w, meta, first)
  {
    hide Intact, Outcome, LinkText;
  }

  method Saturation(vol: Volume, p: Path) returns (full: bool)
    requires Mounted(vol) && PathOk(p)
    ensures full == Saturated(vol, p)
  {
    hide Items, Intact, Walk, Namespace;
    WalkKind(vol, p);
    var ok, i := PathToInode(vol, p);
    full := false;
    if ok {
      var read, n := vol.ReadInode(i);
      full := n.links == 0xFFFF;
    }
  }

  /**
   * Any run of operations on files, directories and symbolic links, of any length and
   * with any outcomes, keeps the volume intact and its counters' drift constant, if no
   * short target spells a block number. It stops only before a link() of a file that
   * already has 65535 links, where the count would wrap.
   */
  method Replay(vol: Volume, ops: seq<Op>) returns (done: nat)
    requires Steady(vol) && forall k :: 0 <= k < |ops| ==> ops[k].Ok(vol.geo.total)
    modifies vol
    ensures Steady(vol) && vol.Books() == old(vol.Books())
    ensures done <= |ops| && (done < |ops| ==> ops[done].LinkOp? && Saturated(vol, ops[done].p))
  {
    hide Intact, Items, Drifts, SuperDrift, AllSafe, Saturated;
    done := 0;
    while done < |ops|
      invariant done <= |ops| && Steady(vol) && vol.Books() == old(vol.Books())
    {
      match ops[done] {
        case CreateOp(p, isDir) => DoCreate(vol, p, isDir);
        case WriteOp(p, data, append) => DoWrite(vol, p, data, append);
        case UnlinkOp(p, isDir) => DoUnlink(vol, p, isDir);
        case RenameOp(p, q) => DoRename(vol, p, q);
        case SymlinkOp(target, p) => DoSymlink(vol, target, p);
        case LinkOp(p, q) =>
          var full := Saturation(vol, p);
          if full { return; }
          DoLink(vol, p, q);
      }
      done := done + 1;
    }
  }

  // ---- runs that keep every directory reachable ----

  /** On a freshly formatted volume the root is the only directory. */
  lemma FormattedRooted(v: Vol, meta: set<nat>, first: nat, b: nat)
    requires Blank(v, meta, first) && b !in v.used && first <= b < |v.blocks|
    ensures Shapely(Formatted(v, b)) && Rooted(TreeOf(Formatted(v, b)))
  {
    hide Sound, Names, DirShape, Linked, KeepsOthers, NewDirInode, DotsBlock, Climb;
    var a := v.(iused := v.iused + iset{ROOT});
    BlankSound(a, meta, first);
    NewDirStep(a, meta, first, ROOT, b, ROOT);
    NewDirShape(a, ROOT, b, ROOT);
    BlankTree(a);
    ClimbZero(Parents(TreeOf(Formatted(v, b))), ROOT);
  }

  /** Whether the new parent lies at or below the directory to be moved: climb from it to the root. */
  method GoesBelow(vol: Volume, p: Path, q: Path) returns (below: bool)
    requires Mounted(vol) && Canonical(p) && Canonical(q) && Rooted(Namespace(vol))
    ensures below <==> Below(Namespace(vol), p, q)
  {
    hide Items, Intact, Walk, Namespace, Holds, CanMove, Climb, Parents, Linked;
    ghost var t := Namespace(vol);
    ghost var m := Parents(t);
    NamespaceIs(vol);
    IntactTree(vol.View(), vol.meta, vol.geo.first);
    ParentsClosed(t);
    var ok, od, nd, i, present, e := FindBoth(vol, p, q);
    if !ok || od == nd {
      return false;
    }
    WalkKind(vol, p);
    WalkKind(vol, Parent(q));
    var readMoved, moved := vol.ReadInode(i);
    var readParent, parent := vol.ReadInode(nd);
    if !IsDir(moved) {
      return false;
    }
    if !IsDir(parent) {
      FileOutside(m, i, nd);
      return false;
    }
    below := Climbs(vol, nd, i);
  }

  lemma FileOutside(m: map<nat, nat>, i: nat, nd: nat)
    requires nd !in m && i in m
    ensures Outside(m, i, nd)
  {
  }

  /** The entry ".." of a directory. */
  method ClimbOne(vol: Volume, d: nat) returns (up: nat)
    requires Mounted(vol) && d in Namespace(vol).names
    ensures d in Parents(Namespace(vol)) && up == Parents(Namespace(vol))[d] && up in Namespace(vol).names
  {
    hide Items, Intact, Namespace, Parents, Linked, Names, DirShape;
    NamespaceIs(vol);
    IntactTree(vol.View(), vol.meta, vol.geo.first);
    MountedIsReady(vol);
    DirNumber(vol, d);
    LookupIsStep(vol, d, DOTDOT);
    DotDotIn(Namespace(vol), d);
    ParentIs(Namespace(vol), d);
    var found;
    found, up := DirLookup(vol, d, DOTDOT);
  }

  /** Following ".." from nd up to the root meets i. */
  method Climbs(vol: Volume, nd: nat, i: nat) returns (met: bool)
    requires Mounted(vol) && Rooted(Namespace(vol)) && nd in Namespace(vol).names
    ensures met <==> !Outside(Parents(Namespace(vol)), i, nd)
  {
    hide Mounted, Namespace, Climb, Parents, Closed, Linked;
    ghost var t := Namespace(vol);
    ghost var m := Parents(t);
    NamespaceLinked(vol);
    ParentsClosed(t);
    ghost var top: nat :| Climb(m, nd, top) == ROOT;
    ghost var k: nat := 0;
    var d := nd;
    ClimbZero(m, nd);
    while d != ROOT && d != i
      invariant d in t.names && k <= top && d == Climb(m, nd, k) && forall l: nat :: l < k ==> Climb(m, nd, l) != i
      decreases top - k
    {
      ClimbOn(m, nd, k, 1);
      ClimbStep(m, d, 0);
      d := ClimbOne(vol, d);
      ClimbZero(m, d);
      k := k + 1;
    }
    if d != i {
      forall l: nat ensures Climb(m, nd, l) != i {
        if l >= k {
          StuckAtRoot(m, nd, k, l);
        }
      }
    }
    met := d == i;
  }

  lemma NamespaceLinked(vol: Volume)
    requires Mounted(vol)
    ensures Linked(Namespace(vol))
  {
    hide Intact, Items, Linked, Namespace;
    NamespaceIs(vol);
    IntactTree(vol.View(), vol.meta, vol.geo.first);
  }

  lemma ParentIs(t: Tree, d: nat)
    requires d in t.names && DOTDOT in t.names[d]
    ensures d in Parents(t) && Parents(t)[d] == t.names[d][DOTDOT]
  {
  }

  lemma DirNumber(vol: Volume, d: nat)
    requires Mounted(vol) && d in Namespace(vol).names
    ensures 1 <= d <= vol.geo.inodes
  {
    hide Sound, Linked, DirShape, Names;
    NotZero(vol, d);
  }

  /**
   * The same runs with one more stop, before a rename that would move a directory below
   * itself, keep every directory reachable from the root as well.
   */
  method ReplayRooted(vol: Volume, ops: seq<Op>) returns (done: nat)
    requires Steady(vol) && Rooted(Namespace(vol)) && forall k :: 0 <= k < |ops| ==> ops[k].Ok(vol.geo.total)
    modifies vol
    ensures Steady(vol) && Rooted(Namespace(vol)) && vol.Books() == old(vol.Books())
    ensures done <= |ops|
    ensures done < |ops| ==>
              || (ops[done].LinkOp? && Saturated(vol, ops[done].p))
              || (ops[done].RenameOp? && Below(Namespace(vol), ops[done].p, ops[done].q))
  {
    hide Intact, Items, Drifts, SuperDrift, AllSafe, Saturated, Below, Rooted, Namespace;
    done := 0;
    while done < |ops|
      invariant done <= |ops| && Steady(vol) && Rooted(Namespace(vol)) && vol.Books() == old(vol.Books())
    {
      match ops[done] {
        case CreateOp(p, isDir) => DoCreate(vol, p, isDir);
        case WriteOp(p, data, append) => DoWrite(vol, p, data, append);
        case UnlinkOp(p, isDir) => DoUnlink(vol, p, isDir);
        case SymlinkOp(target, p) => DoSymlink(vol, target, p);
        case RenameOp(p, q) =>
          var below := GoesBelow(vol, p, q);
          if below { return; }
          DoRename(vol, p, q);
        case LinkOp(p, q) =>
          var full := Saturation(vol, p);
          if full { return; }
          DoLink(vol, p, q);
      }
      done := done + 1;
    }
  }
}
