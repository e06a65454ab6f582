/**
 * The namespace a volume stores, and the whole-volume invariant the operations of
 * fs/ext2/write.c keep.
 */
module Ext2Names {
  import opened Bytes
  import opened Ext2Refs
  import opened Ext2Volume
  import opened Ext2Sound
  import opened Ext2Blocks
  import opened Ext2Data
  import opened Ext2DirBlock
  import opened Ext2DirScan
  import opened Ext2DirMap
  import opened Ext2Dir
  import opened Ext2Tree

  function KindOf(n: Inode): Kind {
    if IsDir(n) then Directory else if n.mode == 0 then Free else Other
  }

  ghost predicate Shapely(v: Vol) {
    forall d: nat :: d < |v.inodes| && IsDir(v.inodes[d]) ==> DirShape(v.inodes[d], v.blocks)
  }

  ghost function Kinds(v: Vol): seq<Kind> {
    seq(|v.inodes|, i requires 0 <= i < |v.inodes| => KindOf(v.inodes[i]))
  }

  ghost function Links(v: Vol): seq<nat> {
    seq(|v.inodes|, i requires 0 <= i < |v.inodes| => v.inodes[i].links)
  }

  ghost function AllNames(v: Vol): map<nat, map<Name, nat>>
    requires Shapely(v)
  {
    map d: nat | d < |v.inodes| && IsDir(v.inodes[d]) :: Names(v, d)
  }

  ghost function TreeOf(v: Vol): Tree
    requires Shapely(v)
  {
    Tree(Kinds(v), Links(v), AllNames(v))
  }

  /** A free inode number has a zeroed table entry; counts and modes are 16-bit. */
  ghost predicate Tidy(v: Vol) {
    (forall i: nat :: i < |v.inodes| ==> TidyAt(v, i)) && |v.inodes| < 0x1_0000_0000
  }

  ghost predicate TidyAt(v: Vol, i: nat)
    requires i < |v.inodes|
  {
    v.inodes[i].links < 0x1_0000 && (v.inodes[i] == ZERO_INODE || (i > 0 && i in v.iused))
  }

  /** The invariant of a mounted volume: ownership, directories, link counts. */
  ghost predicate Intact(v: Vol, meta: set<nat>, first: nat) {
    Fs(v, meta, first) && Tidy(v) && Linked(TreeOf(v))
  }

  /** A step that touches only inode i changes the tree only at i. */
  lemma TreeChange(v: Vol, w: Vol, i: nat)
    requires Shapely(v) && Shapely(w) && KeepsOthers(v, w, i) && i < |v.inodes|
    ensures TreeOf(w).kinds == TreeOf(v).kinds[i := KindOf(w.inodes[i])]
    ensures TreeOf(w).links == TreeOf(v).links[i := w.inodes[i].links]
    ensures IsDir(w.inodes[i]) ==> TreeOf(w).names == TreeOf(v).names[i := Names(w, i)]
    ensures !IsDir(w.inodes[i]) ==> TreeOf(w).names == TreeOf(v).names - {i}
  {
    hide DirShape, Names;
    forall j: nat | j < |v.inodes| && j != i
      ensures w.inodes[j] == v.inodes[j] && (IsDir(v.inodes[j]) ==> Names(w, j) == Names(v, j))
    {
      assert KeepsInode(v, w, j);
      if IsDir(v.inodes[j]) {
        ShapeKept(v, w, j);
      }
    }
    hide KeepsOthers;
    assert Kinds(w) == Kinds(v)[i := KindOf(w.inodes[i])];
    assert Links(w) == Links(v)[i := w.inodes[i].links];
  }

  lemma FsShapely(v: Vol, meta: set<nat>, first: nat)
    requires Fs(v, meta, first)
    ensures Shapely(v) && Sound(v, meta, first)
  {
    hide DirShape, Sound;
  }

  /** Nothing changed for any inode: same tree. */
  lemma TreeSame(v: Vol, w: Vol)
    requires Shapely(v) && Shapely(w) && w.inodes == v.inodes && KeepsOthers(v, w, |v.inodes|)
    ensures TreeOf(w) == TreeOf(v)
  {
    hide DirShape, Names;
    forall j: nat | j < |v.inodes| && IsDir(v.inodes[j]) ensures Names(w, j) == Names(v, j) {
      assert KeepsInode(v, w, j);
      ShapeKept(v, w, j);
    }
  }

  /** A binding added or removed in directory d. */
  lemma TreeDirChanged(v: Vol, w: Vol, meta: set<nat>, first: nat, d: nat, m: map<Name, nat>)
    requires Fs(v, meta, first) && DirChanged(v, w, meta, first, d, m) && IsDir(v.inodes[d])
    ensures Shapely(v) && Shapely(w) && TreeOf(w) == TreeOf(v).(names := TreeOf(v).names[d := m])
    ensures d in TreeOf(v).names && TreeOf(v).names[d] == Names(v, d)
  {
    FsShapely(v, meta, first);
    FsShapely(w, meta, first);
    hide Fs, DirShape, Shapely, Names;
    TreeChange(v, w, d);
    assert TreeOf(v).kinds[d] == KindOf(v.inodes[d]) == KindOf(w.inodes[d]);
    assert TreeOf(v).links[d] == v.inodes[d].links;
  }

  // ---- inode-table steps ----

  /** Rewriting a directory's link count. */
  lemma CountStep(v: Vol, meta: set<nat>, first: nat, d: nat, count: nat)
    requires Fs(v, meta, first) && d < |v.inodes|
    ensures var w := v.(inodes := v.inodes[d := v.inodes[d].(links := count)]);
            && Fs(w, meta, first) && KeepsOthers(v, w, d) && Shapely(v) && Shapely(w)
            && TreeOf(w) == TreeOf(v).(links := TreeOf(v).links[d := count])
            && (IsDir(v.inodes[d]) ==> Body(w.inodes[d], w.blocks) == Body(v.inodes[d], v.blocks))
  {
    var n := v.inodes[d];
    var n' := n.(links := count);
    var w := v.(inodes := v.inodes[d := n']);
    forall s: nat | s < SLOTS ensures Ref(n', v.blocks, s) == Ref(n, v.blocks, s) {
    }
    hide Ref;
    forall k: nat | k < MAX_BLOCKS ensures DataBlock(n', v.blocks, k) == DataBlock(n, v.blocks, k) {
    }
    assert Body(n', v.blocks) == Body(n, v.blocks);
    FsShapely(v, meta, first);
    hide Sound, DataBlock, Body, DirOk;
    SameStep(v, meta, first, d, n');
    if IsDir(n) {
      assert DirShape(n, v.blocks);
      assert DirShape(n', w.blocks);
    }
    hide KeepsOthers, DirShape;
    FsKept(v, w, meta, first, d);
    FsShapely(w, meta, first);
    hide Fs, Shapely;
    TreeChange(v, w, d);
    CountTree(v, w, d, count);
  }

  lemma CountTree(v: Vol, w: Vol, d: nat, count: nat)
    requires Shapely(v) && Shapely(w) && d < |v.inodes|
             && w == v.(inodes := v.inodes[d := v.inodes[d].(links := count)])
    requires Body(w.inodes[d], w.blocks) == Body(v.inodes[d], v.blocks)
    requires TreeOf(w).kinds == TreeOf(v).kinds[d := KindOf(w.inodes[d])]
    requires TreeOf(w).links == TreeOf(v).links[d := count]
    requires IsDir(w.inodes[d]) ==> TreeOf(w).names == TreeOf(v).names[d := Names(w, d)]
    requires !IsDir(w.inodes[d]) ==> TreeOf(w).names == TreeOf(v).names - {d}
    ensures TreeOf(w) == TreeOf(v).(links := TreeOf(v).links[d := count])
  {
    hide Body, DirMap;
    assert TreeOf(v).kinds[d] == KindOf(w.inodes[d]);
    if IsDir(v.inodes[d]) {
      assert Names(w, d) == Names(v, d);
    }
  }

  /** A zeroed inode owns nothing. */
  lemma ZeroRefs(blocks: seq<Block>)
    ensures NoRefs(ZERO_INODE, blocks) && !IsDir(ZERO_INODE) && KindOf(ZERO_INODE) == Free
  {
  }

  /** Replacing an inode without references by another (not a directory) without references. */
  lemma NewFileStep(v: Vol, meta: set<nat>, first: nat, i: nat, n: Inode)
    requires Fs(v, meta, first) && i < |v.inodes| && !IsDir(v.inodes[i]) && !IsDir(n)
    requires NoRefs(v.inodes[i], v.blocks) && NoRefs(n, v.blocks)
    ensures var w := v.(inodes := v.inodes[i := n]);
            && Fs(w, meta, first) && KeepsOthers(v, w, i) && Shapely(v) && Shapely(w)
            && TreeOf(w) == TreeOf(v).(kinds := TreeOf(v).kinds[i := KindOf(n)], links := TreeOf(v).links[i := n.links])
  {
    hide Ref, Sound, DirShape, Names;
    var w := v.(inodes := v.inodes[i := n]);
    SameStep(v, meta, first, i, n);
    FsKept(v, w, meta, first, i);
    FsShapely(v, meta, first);
    FsShapely(w, meta, first);
    TreeChange(v, w, i);
    assert i !in TreeOf(v).names;
    assert TreeOf(v).names - {i} == TreeOf(v).names;
  }

  /** Freeing an inode: its blocks, its number and its table entry. */
  ghost function Retired(v: Vol, i: nat): Vol
    requires i < |v.inodes|
  {
    v.(used := v.used - RawWords(v.inodes[i], v.blocks), iused := v.iused
      - iset{i}, inodes := v.inodes[i := ZERO_INODE])
  }

  lemma RetireStep(v: Vol, meta: set<nat>, first: nat, i: nat)
    requires Fs(v, meta, first) && i < |v.inodes| && Plain(v.inodes[i])
    ensures var w := Retired(v, i);
            && Fs(w, meta, first) && KeepsOthers(v, w, i) && Shapely(v) && Shapely(w)
            && RawWords(v.inodes[i], v.blocks) == References(v.inodes[i], v.blocks)
            && TreeOf(w) == Tree(TreeOf(v).kinds[i := Free], TreeOf(v).links[i := 0], TreeOf(v).names - {i})
  {
    hide Ref, Sound, DirShape, Names, Plain;
    var w := Retired(v, i);
    RawIsReferences(v.inodes[i], v.blocks);
    ZeroRefs(v.blocks);
    DropStep(v, meta, first, i, ZERO_INODE);
    var u := v.(inodes := v.inodes[i := ZERO_INODE], used := v.used - References(v.inodes[i], v.blocks));
    SoundIgnoresInodeMap(u, w, meta, first);
    FsKept(v, w, meta, first, i);
    FsShapely(v, meta, first);
    FsShapely(w, meta, first);
    TreeChange(v, w, i);
  }

  /** Ownership does not read the inode bitmap. */
  lemma SoundIgnoresInodeMap(u: Vol, w: Vol, meta: set<nat>, first: nat)
    requires Sound(u, meta, first) && w == u.(iused := w.iused)
    ensures Sound(w, meta, first)
  {
    hide Ref;
    var owner :| SoundBy(u, meta, first, owner);
    assert SoundBy(w, meta, first, owner);
  }

  lemma FsIgnoresInodeMap(u: Vol, w: Vol, meta: set<nat>, first: nat)
    requires Fs(u, meta, first) && w == u.(iused := w.iused)
    ensures Fs(w, meta, first) && KeepsOthers(u, w, |u.inodes|) && Shapely(u) && Shapely(w) && TreeOf(w) == TreeOf(u)
  {
    hide DirShape, Ref, Names;
    SoundIgnoresInodeMap(u, w, meta, first);
    hide Sound, Body;
    assert KeepsOthers(u, w, |u.inodes|);
    TreeSame(u, w);
  }

  // ---- a new directory ----

  /** The inode ext2_create writes for a directory whose only block is b. */
  function NewDirInode(b: nat): Inode
    requires b < 0x1_0000_0000
  {
    Inode(0x41ED, 2, 1024, SECTORS_PER_BLOCK, NO_POINTERS[0 := b])
  }

  ghost function WithNewDir(v: Vol, i: nat, b: nat, parent: nat): Vol
    requires 0 < i < |v.inodes| < 0x1_0000_0000 && b < |v.blocks| < 0x1_0000_0000 && 0 < parent < 0x1_0000_0000
  {
    v.(used := v.used + iset{b}, blocks := v.blocks[b := DotsBlock(i, parent)], inodes := v.inodes[i := NewDirInode(b)])
  }

  lemma NewDirGains(blocks: seq<Block>, b: nat)
    requires b < 0x1_0000_0000
    ensures GainsRef(ZERO_INODE, blocks, NewDirInode(b), blocks, 0, b) && IsDir(NewDirInode(b))
            && Ref(ZERO_INODE, blocks, 0) == 0
  {
  }

  lemma NewDirSound(v: Vol, meta: set<nat>, first: nat, i: nat, b: nat, parent: nat)
    requires Fs(v, meta, first) && 0 < i < |v.inodes| < 0x1_0000_0000 && v.inodes[i] == ZERO_INODE
    requires b !in v.used && first <= b < |v.blocks| < 0x1_0000_0000 && first > 0 && 0 < parent < 0x1_0000_0000
    ensures b !in meta
    ensures Sound(WithNewDir(v, i, b, parent), meta, first) && KeepsOthers(v, WithNewDir(v, i, b, parent), i)
  {
    hide Ref, DirShape, Body, DotsBlock, NewDirInode;
    var c := DotsBlock(i, parent);
    var a := v.(used := v.used + iset{b}, blocks := v.blocks[b := ZERO_BLOCK]);
    AllocStep(v, meta, first, b, i);
    LooseStep(a, meta, first, b, c);
    var u := a.(blocks := a.blocks[b := c]);
    assert u.blocks == v.blocks[b := c];
    assert KeepsOthers(v, u, i);
    NewDirGains(u.blocks, b);
    hide Sound, Loose, KeepsOthers;
    LooseBounds(u, meta, b);
    GainStep(u, meta, first, i, NewDirInode(b), u.blocks, 0, b);
    KeepsTransitive(v, u, WithNewDir(v, i, b, parent), i);
  }

  lemma NewDirShape(v: Vol, i: nat, b: nat, parent: nat)
    requires 0 < i < |v.inodes| < 0x1_0000_0000 && 0 < b < |v.blocks| < 0x1_0000_0000 && 0 < parent < 0x1_0000_0000
    ensures var w := WithNewDir(v, i, b, parent);
            && DirShape(w.inodes[i], w.blocks) && DOT != DOTDOT
            && Names(w, i) == Dots(i, parent)
  {
    var w := WithNewDir(v, i, b, parent);
    var n, c := w.inodes[i], DotsBlock(i, parent);
    hide DotsBlock, DirOk, DirMap;
    assert Body(n, w.blocks) == [c];
    hide Body;
    DotsBody(i, parent);
  }

  lemma DotsBody(self: nat, parent: nat)
    requires 0 < self < 0x1_0000_0000 && 0 < parent < 0x1_0000_0000
    ensures var c := DotsBlock(self, parent);
            DirOk([c]) && DirMap([c]) == Dots(self, parent)
  {
    hide DotsBlock, Tiled, Slots;
    var c := DotsBlock(self, parent);
    DotsReads(self, parent);
    FlatSolo(c);
    var first, second := Slot(self, 12, DOT, 2), Slot(parent, 1012, DOTDOT, 2);
    assert [first, second] == [first] + [second];
    LiveConcat([first], [second]);
    LiveSingle(first);
    LiveSingle(second);
    var e := [Entry(DOT, self), Entry(DOTDOT, parent)];
    assert Flat([c]) == e;
    assert DOT[..] != DOTDOT[..];
    assert Unique(e);
    BindingsAt(e, 0);
    BindingsAt(e, 1);
  }

  lemma NewDirStep(v: Vol, meta: set<nat>, first: nat, i: nat, b: nat, parent: nat)
    requires Fs(v, meta, first) && 0 < i < |v.inodes| < 0x1_0000_0000 && v.inodes[i] == ZERO_INODE
    requires b !in v.used && first <= b < |v.blocks| < 0x1_0000_0000 && first > 0 && 0 < parent < 0x1_0000_0000
    ensures b !in meta
    ensures var w := WithNewDir(v, i, b, parent);
            && Fs(w, meta, first) && KeepsOthers(v, w, i) && Shapely(v) && Shapely(w)
            && TreeOf(w) == Tree(TreeOf(v).kinds[i := Directory], TreeOf(v).links[i := 2],
                                 TreeOf(v).names[i := Dots(i, parent)])
  {
    hide Ref, DirShape, Names, Sound, KeepsOthers;
    var w := WithNewDir(v, i, b, parent);
    NewDirSound(v, meta, first, i, b, parent);
    NewDirShape(v, i, b, parent);
    FsKept(v, w, meta, first, i);
    FsShapely(v, meta, first);
    FsShapely(w, meta, first);
    TreeChange(v, w, i);
  }

  // ---- the tidy part ----

  lemma TidyKept(v: Vol, w: Vol, i: nat)
    requires Tidy(v) && KeepsOthers(v, w, i) && v.iused - iset{i} <= w.iused
    requires i < |w.inodes| ==> TidyAt(w, i)
    ensures Tidy(w)
  {
    hide Body;
    forall j: nat | j < |w.inodes| ensures TidyAt(w, j) {
      if j != i {
        assert KeepsInode(v, w, j);
        assert TidyAt(v, j);
      }
    }
  }

  /** Directory link counts stay far below 2^16. */
  lemma DirCountBound(v: Vol, meta: set<nat>, first: nat, d: nat)
    requires Fs(v, meta, first) && Shapely(v) && Linked(TreeOf(v)) && d < |v.inodes| && IsDir(v.inodes[d])
    ensures 2 <= v.inodes[d].links <= 22782
  {
    hide Sound, DirOk, Ref, Wired;
    var t := TreeOf(v);
    assert DirShape(v.inodes[d], v.blocks);
    DirBlocks(v.inodes[d], v.blocks);
    NamesFit(Body(v.inodes[d], v.blocks));
    assert t.names[d] == Names(v, d);
    assert ChildDirs(t, d) <= t.names[d].Keys;
    SubsetSize(ChildDirs(t, d), t.names[d].Keys);
    assert |t.names[d].Keys| == |t.names[d]|;
    assert CountOk(t, d);
  }

  // ---- whole operations ----

  /** Every inode outside s keeps its table entry, its references and its contents. */
  ghost predicate KeepsAllBut(v: Vol, w: Vol, s: set<nat>) {
    && |w.inodes| == |v.inodes| && |w.blocks| == |v.blocks|
    && forall j: nat :: j < |v.inodes| && j !in s ==> KeepsInode(v, w, j)
  }

  lemma KeepsChain(u: Vol, v: Vol, w: Vol, s: set<nat>, i: nat)
    requires KeepsAllBut(u, v, s) && KeepsOthers(v, w, i)
    ensures KeepsAllBut(u, w, s + {i})
  {
    hide Body;
    forall j: nat | j < |u.inodes| && j !in s + {i} ensures KeepsInode(u, w, j) {
      assert KeepsInode(u, v, j) && KeepsInode(v, w, j);
    }
  }

  lemma KeepsOne(v: Vol, w: Vol, i: nat)
    requires KeepsOthers(v, w, i)
    ensures KeepsAllBut(v, w, {i})
  {
    hide Body;
  }

  /** A failed operation that at most leaked a block changed nothing visible. */
  lemma LeakedIntact(v: Vol, w: Vol, meta: set<nat>, first: nat)
    requires Intact(v, meta, first) && OnlyLeaked(v, w, meta, first)
    ensures Intact(w, meta, first) && Shapely(v) && Shapely(w) && TreeOf(w) == TreeOf(v)
  {
    hide Sound, DirShape, Names, Linked, Body;
    FsShapely(v, meta, first);
    FsShapely(w, meta, first);
    TreeSame(v, w);
    TidyKept(v, w, |v.inodes|);
  }

  /** A fresh inode number: its table entry is zero and nothing names it. */
  lemma FreshInode(v: Vol, meta: set<nat>, first: nat, i: nat)
    requires Intact(v, meta, first) && 0 < i < |v.inodes| && i !in v.iused
    ensures v.inodes[i] == ZERO_INODE && Shapely(v) && i < |TreeOf(v).kinds| && TreeOf(v).kinds[i] == Free
  {
    hide Fs, Linked, DirShape, Names;
    FsShapely(v, meta, first);
    assert TidyAt(v, i);
    ZeroRefs(v.blocks);
  }

  /** A new table entry for inode i that is not yet named: file, or symlink with its blocks. */
  ghost function Numbered(v: Vol, i: nat, n: Inode): Vol
    requires i < |v.inodes|
  {
    v.(iused := v.iused + iset{i}, inodes := v.inodes[i := n])
  }

  lemma NumberedStep(v: Vol, meta: set<nat>, first: nat, i: nat, n: Inode)
    requires Intact(v, meta, first) && 0 < i < |v.inodes| && i !in v.iused
    requires !IsDir(n) && n.mode != 0 && n.links == 1 && NoRefs(n, v.blocks)
    ensures var u := Numbered(v, i, n);
            && Fs(u, meta, first) && KeepsOthers(v, u, i) && Tidy(u) && Shapely(v) && Shapely(u)
            && TreeOf(u) == TreeOf(v).(kinds := TreeOf(v).kinds[i := Other], links := TreeOf(v).links[i := 1])
  {
    hide Sound, DirShape, Names, Linked, Ref;
    FreshInode(v, meta, first, i);
    ZeroRefs(v.blocks);
    var a := v.(inodes := v.inodes[i := n]);
    NewFileStep(v, meta, first, i, n);
    var u := Numbered(v, i, n);
    FsIgnoresInodeMap(a, u, meta, first);
    assert KeepsOthers(v, u, i) by { hide Body; }
    TidyKept(v, u, i);
  }

  /** Naming the new inode completes the creation. */
  lemma NamedStep(v: Vol, u: Vol, x: Vol, meta: set<nat>, first: nat, d: nat, leaf: Name, i: nat)
    requires Intact(v, meta, first) && 0 < i < |v.inodes| && i !in v.iused && Shapely(v) && Proper(leaf)
    requires Fs(u, meta, first) && Tidy(u) && Shapely(u) && KeepsOthers(v, u, i)
    requires |TreeOf(v).kinds| == |v.inodes| && |TreeOf(v).links| == |v.inodes|
    requires TreeOf(u) == TreeOf(v).(kinds := TreeOf(v).kinds[i := Other], links := TreeOf(v).links[i := 1])
    requires d < |u.inodes| && IsDir(u.inodes[d]) && DirShape(u.inodes[d], u.blocks) && leaf !in Names(u, d)
    requires DirChanged(u, x, meta, first, d, Names(u, d)[leaf := i])
    ensures d in TreeOf(v).names && leaf !in TreeOf(v).names[d]
    ensures Intact(x, meta, first) && KeepsAllBut(v, x, {i, d}) && Shapely(x)
            && TreeOf(x) == Created(TreeOf(v), d, leaf, i)
    ensures x.inodes[i] == u.inodes[i]
  {
    hide Sound, DirShape, Names, Linked, Ref, Created;
    assert KindOf(u.inodes[i]) == TreeOf(u).kinds[i] == Other;
    assert KeepsInode(u, x, i);
    FreshInode(v, meta, first, i);
    TreeDirChanged(u, x, meta, first, d, Names(u, d)[leaf := i]);
    assert d in TreeOf(u).names && TreeOf(u).names[d] == Names(u, d);
    CreatedLinked(TreeOf(v), d, leaf, i);
    CreatedIs(TreeOf(v), TreeOf(u), TreeOf(x), d, leaf, i);
    NamedTidy(u, x, meta, first, d, leaf, i);
    KeepsOne(v, u, i);
    KeepsChain(v, u, x, {i}, d);
    assert {i} + {d} == {i, d};
  }

  lemma CreatedIs(t: Tree, u: Tree, x: Tree, d: nat, leaf: Name, i: nat)
    requires i < |t.kinds| == |t.links| && u == t.(kinds := t.kinds[i := Other], links := t.links[i := 1])
             && d in u.names
    requires x == Bind(u, d, leaf, i)
    ensures x == Created(t, d, leaf, i)
  {
  }

  /** Adding a binding keeps the tidy part. */
  lemma NamedTidy(u: Vol, x: Vol, meta: set<nat>, first: nat, d: nat, leaf: Name, i: nat)
    requires Tidy(u) && d < |u.inodes| && IsDir(u.inodes[d]) && DirShape(u.inodes[d], u.blocks)
    requires DirChanged(u, x, meta, first, d, Names(u, d)[leaf := i])
    ensures Tidy(x)
  {
    hide Fs, DirShape, Names;
    assert TidyAt(u, d);
    assert u.inodes[d] != ZERO_INODE by { ZeroRefs(u.blocks); }
    assert TidyAt(x, d);
    TidyKept(u, x, d);
  }

  /** Undoing a creation that could not be named. */
  lemma UnnamedStep(v: Vol, x: Vol, meta: set<nat>, first: nat, i: nat)
    requires Intact(v, meta, first) && 0 < i < |v.inodes| && i !in v.iused && v.inodes[i] == ZERO_INODE
    requires Fs(x, meta, first) && KeepsOthers(v, x, i) && x.iused == v.iused && x.inodes[i] == ZERO_INODE
    requires x.used == v.used || exists b: nat :: b !in v.used && x.used == v.used + iset{b}
    ensures OnlyLeaked(v, x, meta, first) && Intact(x, meta, first) && Shapely(v) && Shapely(x)
            && TreeOf(x) == TreeOf(v)
  {
    hide Fs, Linked;
    assert x.inodes == v.inodes by {
      forall j: nat | j < |v.inodes| ensures x.inodes[j] == v.inodes[j] {
        if j != i { assert KeepsInode(v, x, j); }
      }
    }
    forall j: nat | j < |v.inodes| ensures KeepsInode(v, x, j) {
      if j == i {
        ZeroRefs(v.blocks);
        ZeroRefs(x.blocks);
        assert Body(ZERO_INODE, v.blocks) == [] == Body(ZERO_INODE, x.blocks);
      }
    }
    LeakedIntact(v, x, meta, first);
  }
}
