/**
 * Removing names: the two ways fs/ext2/write.c takes an entry out of a directory
 * (a file loses a link, an empty directory disappears), shared by ext2_unlink and
 * by ext2_rename when it replaces its destination.
 */
module Ext2Unlink {
  import opened Bytes
  import opened Ext2Refs
  import opened Ext2Volume
  import opened Ext2Sound
  import opened Ext2Blocks
  import opened Ext2Data
  import opened Ext2DirBlock
  import opened Ext2DirScan
  import opened Ext2DirMap
  import opened Ext2Dir
  import opened Ext2Tree
  import opened Ext2Names
  import opened Ext2Write

  /** Directory d names inode i as leaf, on an intact volume. */
  ghost predicate Holds(v: Vol, meta: set<nat>, first: nat, d: nat, leaf: Name, i: nat) {
    && Intact(v, meta, first) && Shapely(v) && d < |v.inodes| && i < |v.inodes|
    && HasEntry(TreeOf(v), d, leaf) && TreeOf(v).names[d][leaf] == i
  }

  /** The entry is gone from the directory; nothing else has changed yet. */
  lemma UnboundStep(v: Vol, x: Vol, meta: set<nat>, first: nat, d: nat, leaf: Name, i: nat)
    requires Holds(v, meta, first, d, leaf, i) && IsDir(v.inodes[d]) && DirShape(v.inodes[d], v.blocks)
    requires DirChanged(v, x, meta, first, d, Names(v, d) - {leaf}) && x.inodes == v.inodes
    ensures Fs(x, meta, first) && Tidy(x) && Shapely(x) && KeepsAllBut(v, x, {d})
            && TreeOf(x) == Unbind(TreeOf(v), d, leaf)
  {
    hide Sound, DirShape, Names, Linked, KeepsOthers;
    TreeDirChanged(v, x, meta, first, d, Names(v, d) - {leaf});
    assert TidyAt(v, d);
    assert v.inodes[d] != ZERO_INODE by { ZeroRefs(v.blocks); }
    TidyKept(v, x, d);
    KeepsOne(v, x, d);
  }

  lemma HoldsKinds(v: Vol, meta: set<nat>, first: nat, d: nat, leaf: Name, i: nat)
    requires Holds(v, meta, first, d, leaf, i)
    ensures IsDir(v.inodes[d]) && DirShape(v.inodes[d], v.blocks) && Names(v, d) == TreeOf(v).names[d]
            && leaf in Names(v, d)
    ensures KindOf(v.inodes[i]) != Free && (IsDir(v.inodes[i]) <==> i in TreeOf(v).names)
    ensures TreeOf(v).kinds[i] == KindOf(v.inodes[i]) && TreeOf(v).links[i] == v.inodes[i].links && d > 0 && i > 0
    ensures v.inodes[i] != ZERO_INODE && i in v.iused && v.inodes[i].links < 0x1_0000
    ensures !IsDir(v.inodes[i]) ==> d != i && v.inodes[i].links > 0
  {
    hide Sound, DirShape, Names;
    var t := TreeOf(v);
    assert d in t.names && IsDirectory(t, d);
    StepLive(t, d, leaf);
    assert TidyAt(v, d) && TidyAt(v, i);
    ZeroRefs(v.blocks);
    if !IsDir(v.inodes[i]) {
      assert CountOk(t, i);
      assert (d, leaf) in Entries(t, i);
    }
  }

  // ---- what freeing an inode really frees ----

  /**
   * Freeing inode i hurts nobody: no number handed to ext2_free_block names a
   * block in use by another inode or by the metadata.
   */
  ghost predicate Harmless(v: Vol, meta: set<nat>, first: nat, i: nat)
    requires i < |v.inodes|
  {
    forall r: nat :: r in RawWords(v.inodes[i], v.blocks) ==> Spare(v, meta, first, i, r)
  }

  ghost predicate Spare(v: Vol, meta: set<nat>, first: nat, i: nat, r: nat) {
    && !(r in meta && r >= first)
    && forall j: nat :: j < |v.inodes| && j != i ==> !RefersTo(v.inodes[j], v.blocks, r)
  }

  /** An inode whose words are block numbers is always harmless to free. */
  lemma PlainHarmless(v: Vol, meta: set<nat>, first: nat, i: nat)
    requires Sound(v, meta, first) && i < |v.inodes| && Plain(v.inodes[i])
    ensures Harmless(v, meta, first, i) && RawWords(v.inodes[i], v.blocks) == References(v.inodes[i], v.blocks)
  {
    hide Ref, Sound, RawWords, Plain;
    RawIsReferences(v.inodes[i], v.blocks);
    forall r: nat | r in References(v.inodes[i], v.blocks) ensures Spare(v, meta, first, i, r) {
      var s: nat :| s < SLOTS && Ref(v.inodes[i], v.blocks, s) == r;
      SoundMeans(v, meta, first, i, s);
    }
  }

  /** For a fast symlink, whose words are text, freeing keeps the volume sound exactly when it is harmless. */
  lemma FastRetireSound(v: Vol, meta: set<nat>, first: nat, i: nat)
    requires Sound(v, meta, first) && i < |v.inodes| && IsFast(v.inodes[i])
    ensures Sound(Retired(v, i), meta, first) <==> Harmless(v, meta, first, i)
  {
    hide RawWords, Ref;
    var w := Retired(v, i);
    if Sound(w, meta, first) {
      forall r: nat | r in RawWords(v.inodes[i], v.blocks) ensures Spare(v, meta, first, i, r) {
        SoundSpares(v, w, meta, first, i, r);
      }
    }
    if Harmless(v, meta, first, i) {
      HarmlessSound(v, meta, first, i);
    }
  }

  lemma SoundSpares(v: Vol, w: Vol, meta: set<nat>, first: nat, i: nat, r: nat)
    requires Sound(w, meta, first) && r !in w.used && w.blocks == v.blocks && i < |v.inodes|
             && w.inodes == v.inodes[i := ZERO_INODE]
    ensures Spare(v, meta, first, i, r)
  {
    hide Ref;
    var owner :| SoundBy(w, meta, first, owner);
    forall j: nat | j < |v.inodes| && j != i ensures !RefersTo(v.inodes[j], v.blocks, r) {
      assert w.inodes[j] == v.inodes[j];
    }
  }

  lemma HarmlessSound(v: Vol, meta: set<nat>, first: nat, i: nat)
    requires Sound(v, meta, first) && i < |v.inodes| && IsFast(v.inodes[i]) && Harmless(v, meta, first, i)
    ensures Sound(Retired(v, i), meta, first)
  {
    var w := Retired(v, i);
    FastHasNoRefs(v.inodes[i], v.blocks);
    ZeroRefs(v.blocks);
    hide RawWords, Ref;
    var owner :| SoundBy(v, meta, first, owner);
    OwnsSame(v.inodes, v.blocks, owner, i, ZERO_INODE);
    forall r | r in owner ensures r in w.used {
      var at := owner[r];
      assert OwnerRefers(v.inodes, v.blocks, r, at);
      assert at.0 != i && RefersTo(v.inodes[at.0], v.blocks, r);
    }
    assert SoundBy(w, meta, first, owner);
  }

  // ---- a bitmap that lost bits ----

  /** More bits set does no harm. */
  lemma SoundRestored(v: Vol, meta: set<nat>, first: nat, lost: iset<nat>)
    requires Sound(v, meta, first)
    ensures Sound(Restored(v, lost), meta, first)
  {
    hide Owns;
    var owner :| SoundBy(v, meta, first, owner);
    assert SoundBy(Restored(v, lost), meta, first, owner);
  }

  /** With the cleared bits put back, a volume whose fast symlink was freed is sound again. */
  lemma FastRetireRestored(v: Vol, meta: set<nat>, first: nat, i: nat)
    requires Sound(v, meta, first) && i < |v.inodes| && IsFast(v.inodes[i])
    ensures Sound(Restored(Retired(v, i), v.used), meta, first)
  {
    var w := Restored(Retired(v, i), v.used);
    FastHasNoRefs(v.inodes[i], v.blocks);
    ZeroRefs(v.blocks);
    hide RawWords, Ref;
    var owner :| SoundBy(v, meta, first, owner);
    OwnsSame(v.inodes, v.blocks, owner, i, ZERO_INODE);
    assert SoundBy(w, meta, first, owner);
  }

  /** Names and links do not depend on the bitmap. */
  lemma RestoredTree(v: Vol, lost: iset<nat>)
    ensures Shapely(Restored(v, lost)) <==> Shapely(v)
    ensures Shapely(v) ==> TreeOf(Restored(v, lost)) == TreeOf(v)
  {
    hide DirShape;
    var w := Restored(v, lost);
    assert Kinds(w) == Kinds(v) && Links(w) == Links(v);
    if Shapely(v) {
      forall d: nat | d < |v.inodes| && IsDir(v.inodes[d]) ensures Names(w, d) == Names(v, d) {
      }
    }
  }

  lemma RestoredIntact(v: Vol, meta: set<nat>, first: nat, lost: iset<nat>)
    requires Sound(Restored(v, lost), meta, first) && Tidy(v) && Shapely(v) && Linked(TreeOf(v))
    ensures Intact(Restored(v, lost), meta, first)
  {
    hide Sound, DirShape, Linked, TreeOf;
    RestoredTree(v, lost);
    var w := Restored(v, lost);
    forall i: nat | i < |w.inodes| ensures TidyAt(w, i) {
      assert TidyAt(v, i);
    }
  }

  lemma FastHasNoRefs(n: Inode, blocks: seq<Block>)
    requires IsFast(n)
    ensures NoRefs(n, blocks)
  {
  }

  /** Freeing any inode that is not a directory. */
  lemma RetireIff(v: Vol, meta: set<nat>, first: nat, i: nat)
    requires Fs(v, meta, first) && i < |v.inodes| && !IsDir(v.inodes[i])
    ensures var w := Retired(v, i);
            && (Fs(w, meta, first) <==> Harmless(v, meta, first, i)) && KeepsOthers(v, w, i) && Shapely(v) && Shapely(w)
            && Sound(Restored(w, v.used), meta, first)
            && TreeOf(w) == Tree(TreeOf(v).kinds[i := Free], TreeOf(v).links[i := 0], TreeOf(v).names - {i})
  {
    hide Ref, Sound, DirShape, Names, Plain, RawWords, Harmless;
    var w := Retired(v, i);
    if IsFast(v.inodes[i]) {
      FastRetireSound(v, meta, first, i);
      FastRetireRestored(v, meta, first, i);
    } else {
      assert Plain(v.inodes[i]) by { FastOrPlain(v.inodes[i]); }
      PlainHarmless(v, meta, first, i);
      RetireStep(v, meta, first, i);
      SoundRestored(w, meta, first, v.used);
    }
    RetiredKeeps(v, i);
    ZeroRefs(v.blocks);
    FsShapely(v, meta, first);
    RetiredShape(v, i);
    TreeChange(v, w, i);
  }

  lemma FastOrPlain(n: Inode)
    ensures IsFast(n) || Plain(n)
  {
  }

  lemma RetiredKeeps(v: Vol, i: nat)
    requires i < |v.inodes|
    ensures KeepsOthers(v, Retired(v, i), i)
  {
    hide Ref, Body, RawWords;
  }

  lemma RetiredShape(v: Vol, i: nat)
    requires Shapely(v) && i < |v.inodes|
    ensures Shapely(Retired(v, i))
  {
    hide RawWords, DirShape;
    ZeroRefs(v.blocks);
  }

  // ---- a file loses a link ----

  ghost function LessLinked(x: Vol, i: nat): Vol
    requires i < |x.inodes| && x.inodes[i].links > 0
  {
    if x.inodes[i].links == 1 then Retired(x, i)
    else x.(inodes := x.inodes[i := x.inodes[i].(links := x.inodes[i].links - 1)])
  }

  lemma FileDropped(v: Vol, x: Vol, meta: set<nat>, first: nat, d: nat, leaf: Name, i: nat)
    requires Holds(v, meta, first, d, leaf, i) && !IsDir(v.inodes[i]) && DirShape(v.inodes[d], v.blocks)
    requires IsDir(v.inodes[d]) && DirChanged(v, x, meta, first, d, Names(v, d) - {leaf}) && x.inodes == v.inodes
    requires v.inodes[i].links > 0 && TreeOf(v).links[i] == v.inodes[i].links
             && i < |TreeOf(v).links| == |TreeOf(v).kinds|
    ensures var y := LessLinked(x, i);
            && KeepsAllBut(v, y, {d, i}) && Shapely(y) && TreeOf(y) == Unlinked(TreeOf(v), d, leaf)
            && KeepsOthers(x, y, i) && d != i
            && (v.inodes[i].links > 1 ==> Intact(y, meta, first))
            && (v.inodes[i].links == 1 ==> (Intact(y, meta, first) <==> Harmless(x, meta, first, i)))
            && (v.inodes[i].links == 1 ==> Intact(Restored(y, x.used), meta, first))
  {
    hide Sound, DirShape, Names, KeepsOthers, Linked, Unlinked, RawWords, Plain, Harmless, Restored;
    HoldsKinds(v, meta, first, d, leaf, i);
    UnboundStep(v, x, meta, first, d, leaf, i);
    UnlinkedLinked(TreeOf(v), d, leaf);
    var y := LessLinked(x, i);
    if v.inodes[i].links == 1 {
      RetireIff(x, meta, first, i);
      assert TidyAt(y, i);
      TidyKept(x, y, i);
    } else {
      CountStep(x, meta, first, i, x.inodes[i].links - 1);
      CountTidy(x, y, i);
    }
    UnlinkedIs(TreeOf(v), TreeOf(x), TreeOf(y), d, leaf, i);
    if v.inodes[i].links == 1 {
      RestoredIntact(y, meta, first, x.used);
    }
    KeepsChain(v, x, y, {d}, i);
    assert {d} + {i} == {d, i};
  }

  /** Editing a block of directory d does not change what freeing inode i would hurt. */
  lemma HarmlessSame(v: Vol, x: Vol, meta: set<nat>, first: nat, d: nat, i: nat)
    requires Sound(v, meta, first) && OneBlockEdited(v, x, d) && KeepsOthers(v, x, d) && i < |v.inodes| && i != d
    ensures Harmless(v, meta, first, i) <==> Harmless(x, meta, first, i)
    ensures Harmless(v, meta, first, i) ==> RawWords(x.inodes[i], x.blocks) == RawWords(v.inodes[i], v.blocks)
  {
    hide Ref, Sound, RawWords, KeepsOthers;
    var k: nat, c: Block :| EditedAt(v, x, d, k, c);
    var b := Ref(v.inodes[d], v.blocks, SlotOf(k));
    DataStep(v, meta, first, d, k, c);
    EditSpares(v, x, meta, first, d, i);
    var n := v.inodes[i];
    if n.ptr[INDIRECT] == b {
      assert RefersTo(v.inodes[d], v.blocks, b);
      IndirectRaw(n, v.blocks);
      IndirectRaw(n, x.blocks);
      assert !Spare(v, meta, first, i, b);
    } else {
      RawSame(n, v.blocks, x.blocks);
    }
  }

  /** The indirect word is among the numbers freed. */
  lemma IndirectRaw(n: Inode, blocks: seq<Block>)
    ensures n.ptr[INDIRECT] != 0 ==> n.ptr[INDIRECT] in RawWords(n, blocks)
  {
    hide Word;
    assert n.ptr[INDIRECT] != 0 ==> HasPointer(n, 13, n.ptr[INDIRECT]);
  }

  lemma RawSame(n: Inode, blocks: seq<Block>, after: seq<Block>)
    requires |after| == |blocks|
             && (0 < n.ptr[INDIRECT] < |blocks| ==> after[n.ptr[INDIRECT]] == blocks[n.ptr[INDIRECT]])
    ensures RawWords(n, after) == RawWords(n, blocks)
  {
  }

  lemma EditSpares(v: Vol, x: Vol, meta: set<nat>, first: nat, d: nat, i: nat)
    requires KeepsOthers(v, x, d) && d < |v.inodes| && x.inodes == v.inodes
    requires forall s: nat :: s < SLOTS ==> Ref(v.inodes[d], x.blocks, s) == Ref(v.inodes[d], v.blocks, s)
    ensures forall r: nat :: Spare(x, meta, first, i, r) <==> Spare(v, meta, first, i, r)
  {
    hide Ref, Body;
    forall j: nat, r: nat | j < |v.inodes|
        ensures RefersTo(x.inodes[j], x.blocks, r) <==> RefersTo(v.inodes[j], v.blocks, r) {
      if j != d {
        assert KeepsInode(v, x, j);
      }
    }
  }

  lemma UnlinkedIs(t: Tree, x: Tree, y: Tree, d: nat, leaf: Name, i: nat)
    requires HasEntry(t, d, leaf) && t.names[d][leaf] == i < |t.kinds| == |t.links| && i !in t.names && t.links[i] > 0
    requires x == Unbind(t, d, leaf)
    requires y == if t.links[i] == 1 then Tree(x.kinds[i := Free], x.links[i := 0], x.names - {i})
             else x.(links := x.links[i := x.links[i] - 1])
    ensures y == Unlinked(t, d, leaf)
  {
    assert x.names - {i} == x.names;
  }

  /** Directory d has room for any name of the given length. */
  ghost predicate Roomy(w: Vol, d: nat, len: nat) {
    && d < |w.inodes| && IsDir(w.inodes[d]) && DirShape(w.inodes[d], w.blocks)
    && forall same: Name :: |same| == len ==> RoomFor(w, d, same)
  }

  /**
   * One name and one link of file i are gone.  With the last link exactly the
   * blocks it owned are free again, and the volume stays intact, if and only if
   * the freeing was harmless; otherwise the bitmap bits are all that is wrong.
   */
  ghost predicate FileGone(v: Vol, w: Vol, meta: set<nat>, first: nat, d: nat, leaf: Name, i: nat) {
    && Shapely(v) && Shapely(w) && HasEntry(TreeOf(v), d, leaf) && TreeOf(v).names[d][leaf] == i
    && i < |v.inodes| && v.inodes[i].links > 0 && i < |TreeOf(v).links| == |TreeOf(v).kinds| && TreeOf(v).links[i] > 0
    && TreeOf(w) == Unlinked(TreeOf(v), d, leaf)
    && KeepsAllBut(v, w, {d, i})
    && (w.inodes[i] == v.inodes[i].(links := w.inodes[i].links) || w.inodes[i] == ZERO_INODE)
    && Roomy(w, d, |leaf|)
    && (v.inodes[i].links > 1 ==> Intact(w, meta, first) && w.used == v.used)
    && (v.inodes[i].links == 1 ==> (Intact(w, meta, first) <==> Harmless(v, meta, first, i)))
    && (v.inodes[i].links == 1 ==> Intact(Restored(w, v.used), meta, first))
    && (v.inodes[i].links == 1 && Harmless(v, meta, first, i) ==> w.used == v.used - RawWords(v.inodes[i], v.blocks))
  }

  lemma FileGoneStep(v: Vol, x: Vol, meta: set<nat>, first: nat, d: nat, leaf: Name, i: nat)
    requires Holds(v, meta, first, d, leaf, i) && !IsDir(v.inodes[i]) && DirShape(v.inodes[d], v.blocks)
    requires IsDir(v.inodes[d]) && DirChanged(v, x, meta, first, d, Names(v, d) - {leaf}) && x.inodes == v.inodes
             && x.used == v.used
    requires OneBlockEdited(v, x, d) && Roomy(x, d, |leaf|)
    ensures x.inodes[i].links > 0 && FileGone(v, LessLinked(x, i), meta, first, d, leaf, i)
  {
    hide Intact, DirShape, Names, KeepsOthers, Unlinked, RawWords, Plain, Shapely, RoomFor, Ref, KeepsAllBut,
         References, Harmless, OneBlockEdited;
    HoldsKinds(v, meta, first, d, leaf, i);
    FileDropped(v, x, meta, first, d, leaf, i);
    assert KeepsOthers(v, x, d) && Fs(x, meta, first);
    hide DirChanged, Fs;
    HoldsSound(v, meta, first, d, leaf, i);
    HarmlessSame(v, x, meta, first, d, i);
    RoomKept(x, LessLinked(x, i), meta, first, i, d, leaf);
  }

  lemma HoldsSound(v: Vol, meta: set<nat>, first: nat, d: nat, leaf: Name, i: nat)
    requires Holds(v, meta, first, d, leaf, i)
    ensures Sound(v, meta, first)
  {
    hide Sound, Tidy, Linked, Shapely;
  }

  /**
   * fs/ext2/write.c:192, 204-213 (and 251, 261-269): the name goes, and with the last name the
   * inode and its blocks.
   */
  method DropFile(vol: Volume, d: nat, leaf: Name, i: nat)
    requires vol.Valid() && Holds(vol.View(), vol.meta, vol.geo.first, d, leaf, i) && |leaf| <= 255
    requires !IsDir(vol.inodes[i])
    modifies vol
    ensures vol.Valid() && vol.Books() == old(vol.Books())
    ensures FileGone(old(vol.View()), vol.View(), vol.meta, vol.geo.first, d, leaf, i)
  {
    hide Items, Drifts, SuperDrift, Intact, Shapely, Names, DirShape, KeepsOthers, DirChanged, Plain, RawWords, RoomFor,
         FileGone, OneBlockEdited;
    ghost var v := vol.View();
    ghost var meta, first := vol.meta, vol.geo.first;
    HoldsKinds(v, meta, first, d, leaf, i);
    HoldsReady(v, meta, first, d, leaf, i);
    var read, n := vol.ReadInode(i);
    var removed := DirRemove(vol, d, leaf);
    ghost var x := vol.View();
    ChangedIsFs(v, x, meta, first, d, Names(v, d) - {leaf});
    FileGoneStep(v, x, meta, first, d, leaf, i);
    var count := if n.links > 0 then n.links - 1 else n.links;
    if count == 0 {
      Retire(vol, i, n, false);
    } else {
      var stored := vol.WriteInode(i, n.(links := count));
    }
    assert vol.View() == LessLinked(x, i);
  }

  /** ext2_inode_free_all_blocks then ext2_free_inode: everything inode i held is free again. */
  method Retire(vol: Volume, i: nat, n: Inode, isDir: bool)
    requires vol.Valid() && 1 <= i <= vol.geo.inodes && n == vol.inodes[i] && i in vol.View().iused
    modifies vol
    ensures vol.Valid() && vol.Books() == old(vol.Books()) && vol.View() == Retired(old(vol.View()), i)
  {
    hide Items, Drifts, SuperDrift, RawWords;
    var emptied := FreeAllBlocks(vol, n);
    vol.FreeInode(i, isDir);
  }

  lemma HoldsReady(v: Vol, meta: set<nat>, first: nat, d: nat, leaf: Name, i: nat)
    requires Holds(v, meta, first, d, leaf, i)
    ensures Fs(v, meta, first)
  {
    hide Fs, Tidy, Linked, Shapely;
  }

  lemma SameRefsAcross(v: Vol, x: Vol, meta: set<nat>, first: nat, d: nat, i: nat)
    requires KeepsOthers(v, x, d) && i < |v.inodes| && i != d
    ensures x.inodes[i] == v.inodes[i] && References(x.inodes[i], x.blocks) == References(v.inodes[i], v.blocks)
  {
    hide Ref, Body;
    assert KeepsInode(v, x, i);
    SameReferences(v.inodes[i], v.blocks, x.blocks);
  }

  lemma RoomKept(x: Vol, y: Vol, meta: set<nat>, first: nat, i: nat, d: nat, leaf: Name)
    requires KeepsOthers(x, y, i) && d < |x.inodes| && d != i && IsDir(x.inodes[d]) && DirShape(x.inodes[d], x.blocks)
    requires forall same: Name :: |same| == |leaf| ==> RoomFor(x, d, same)
    ensures |y.inodes| == |x.inodes| && IsDir(y.inodes[d]) && DirShape(y.inodes[d], y.blocks)
    ensures forall same: Name :: |same| == |leaf| ==> RoomFor(y, d, same)
  {
    hide Body, DirShape, HasRoom;
    assert KeepsInode(x, y, d);
    ShapeKept(x, y, d);
    forall same: Name | |same| == |leaf| ensures RoomFor(y, d, same) {
      assert RoomFor(x, d, same);
    }
  }

  // ---- an empty directory disappears ----

  ghost function DirRetired(x: Vol, d: nat, i: nat): Vol
    requires d < |x.inodes| && i < |x.inodes|
  {
    var y := Retired(x, i);
    var links := y.inodes[d].links;
    y.(inodes := y.inodes[d := y.inodes[d].(links := if links > 0 then links - 1 else links)])
  }

  ghost predicate DirGone(v: Vol, w: Vol, d: nat, leaf: Name, i: nat) {
    && Shapely(v) && Shapely(w) && HasEntry(TreeOf(v), d, leaf) && TreeOf(v).names[d][leaf] == i
    && i < |v.inodes| && i < |TreeOf(v).links| == |TreeOf(v).kinds| && d < |TreeOf(v).links|
    && TreeOf(w) == RemovedDir(TreeOf(v), d, leaf)
    && KeepsAllBut(v, w, {d, i})
    && w.used == v.used - References(v.inodes[i], v.blocks)
    && Roomy(w, d, |leaf|)
  }

  lemma DirDropped(v: Vol, x: Vol, meta: set<nat>, first: nat, d: nat, leaf: Name, i: nat)
    requires Holds(v, meta, first, d, leaf, i) && EmptyDir(TreeOf(v), i) && IsDir(v.inodes[i])
             && DirShape(v.inodes[d], v.blocks)
    requires IsDir(v.inodes[d]) && DirChanged(v, x, meta, first, d, Names(v, d) - {leaf}) && x.inodes == v.inodes
    ensures d != i && i < |TreeOf(v).links| == |TreeOf(v).kinds| && d < |TreeOf(v).links|
    ensures var z := DirRetired(x, d, i);
            && Intact(z, meta, first) && Shapely(z) && TreeOf(z) == RemovedDir(TreeOf(v), d, leaf)
            && KeepsAllBut(v, z, {d, i})
    ensures RawWords(x.inodes[i], x.blocks) == References(x.inodes[i], x.blocks)
  {
    hide Sound, DirShape, Names, KeepsOthers, Linked, RemovedDir, RawWords, Plain;
    HoldsKinds(v, meta, first, d, leaf, i);
    UnboundStep(v, x, meta, first, d, leaf, i);
    RemovedDirLinked(TreeOf(v), d, leaf);
    DirIsPlain(v.inodes[i]);
    RetireStep(x, meta, first, i);
    var y := Retired(x, i);
    assert TidyAt(y, i);
    TidyKept(x, y, i);
    var z := DirRetired(x, d, i);
    CountStep(y, meta, first, d, z.inodes[d].links);
    assert TidyAt(x, d);
    CountTidy(y, z, d);
    RemovedDirIs(TreeOf(v), TreeOf(x), TreeOf(y), TreeOf(z), d, leaf, i);
    KeepsChain(v, x, y, {d}, i);
    KeepsChain(v, y, z, {d} + {i}, d);
    assert {d} + {i} + {d} == {d, i};
  }

  lemma DirIsPlain(n: Inode)
    requires IsDir(n)
    ensures Plain(n)
  {
  }

  lemma RemovedDirIs(t: Tree, x: Tree, y: Tree, z: Tree, d: nat, leaf: Name, i: nat)
    requires HasEntry(t, d, leaf) && t.names[d][leaf] == i < |t.kinds| == |t.links| && d < |t.links| && d != i
    requires x == Unbind(t, d, leaf) && y == Tree(x.kinds[i := Free], x.links[i := 0], x.names - {i})
    requires z == y.(links := y.links[d := if t.links[d] > 0 then t.links[d] - 1 else t.links[d]])
    ensures z == RemovedDir(t, d, leaf)
  {
  }

  lemma DirGoneStep(v: Vol, x: Vol, meta: set<nat>, first: nat, d: nat, leaf: Name, i: nat)
    requires Holds(v, meta, first, d, leaf, i) && EmptyDir(TreeOf(v), i) && IsDir(v.inodes[i])
             && DirShape(v.inodes[d], v.blocks)
    requires IsDir(v.inodes[d]) && DirChanged(v, x, meta, first, d, Names(v, d) - {leaf}) && x.inodes == v.inodes
             && x.used == v.used
    requires Roomy(x, d, |leaf|)
    ensures d != i && Intact(DirRetired(x, d, i), meta, first) && DirGone(v, DirRetired(x, d, i), d, leaf, i)
  {
    hide Intact, DirShape, Names, KeepsOthers, RemovedDir, RawWords, Plain, Shapely, RoomFor, Ref, KeepsAllBut,
         References;
    HoldsKinds(v, meta, first, d, leaf, i);
    DirDropped(v, x, meta, first, d, leaf, i);
    assert KeepsOthers(v, x, d) && Fs(x, meta, first);
    hide DirChanged, Fs;
    DirIsPlain(x.inodes[i]);
    SameRefsAcross(v, x, meta, first, d, i);
    RetireStep(x, meta, first, i);
    var y := Retired(x, i);
    RoomKept(x, y, meta, first, i, d, leaf);
    RoomCounted(y, DirRetired(x, d, i), meta, first, d, |leaf|);
  }

  /** A link count does not matter to the room in a directory. */
  lemma RoomCounted(y: Vol, z: Vol, meta: set<nat>, first: nat, d: nat, len: nat)
    requires Fs(y, meta, first) && Roomy(y, d, len)
    requires d < |z.inodes| && z == y.(inodes := y.inodes[d := y.inodes[d].(links := z.inodes[d].links)])
    ensures Roomy(z, d, len)
  {
    hide DirShape, HasRoom, Body, KeepsOthers, Sound;
    CountStep(y, meta, first, d, z.inodes[d].links);
    assert Shapely(z);
    forall same: Name | |same| == len ensures RoomFor(z, d, same) {
      assert RoomFor(y, d, same);
    }
  }

  /** fs/ext2/write.c:192-203 (and 251-260): the name, the directory, and one count in the parent. */
  method DropDirectory(vol: Volume, d: nat, leaf: Name, i: nat)
    requires vol.Valid() && Holds(vol.View(), vol.meta, vol.geo.first, d, leaf, i) && |leaf| <= 255
    requires IsDir(vol.inodes[i]) && EmptyDir(TreeOf(vol.View()), i)
    modifies vol
    ensures Mounted(vol) && vol.Books() == old(vol.Books())
    ensures DirGone(old(vol.View()), vol.View(), d, leaf, i)
  {
    hide Items, Drifts, SuperDrift, Intact, Shapely, Names, DirShape, KeepsOthers, DirChanged, RawWords, RoomFor,
         DirGone, OneBlockEdited;
    ghost var v := vol.View();
    ghost var meta, first := vol.meta, vol.geo.first;
    HoldsKinds(v, meta, first, d, leaf, i);
    HoldsReady(v, meta, first, d, leaf, i);
    var read, n := vol.ReadInode(i);
    var removed := DirRemove(vol, d, leaf);
    ghost var x := vol.View();
    ChangedIsFs(v, x, meta, first, d, Names(v, d) - {leaf});
    DirGoneStep(v, x, meta, first, d, leaf, i);
    Retire(vol, i, n, true);
    var readParent, parent := vol.ReadInode(d);
    var stored := vol.WriteInode(d, parent.(links := if parent.links > 0 then parent.links - 1 else parent.links));
    assert vol.View() == DirRetired(x, d, i);
  }

  // ---- the operation by path ----

  /** What a path names, if split_parent_leaf accepts it. */
  ghost function Target(t: Tree, p: Path): Found {
    if Splits(p) then Walk(t, ROOT, p) else Nowhere
  }

  /** A target is an entry of its parent directory. */
  lemma TargetHolds(vol: Volume, p: Path)
    requires Mounted(vol) && Canonical(p) && Target(Namespace(vol), p).At?
    ensures var v := vol.View(); var d, i := ParentOf(Namespace(vol), p), Target(Namespace(vol), p).ino;
            d.At? && Holds(v, vol.meta, vol.geo.first, d.ino, Leaf(p), i)
  {
    hide Fs, Tidy, Names, CountOk, Wired, Shapely;
    var t := Namespace(vol);
    WalkByParent(t, p);
    hide Walk;
    FsShapely(vol.View(), vol.meta, vol.geo.first);
    var d := ParentOf(t, p).ino;
    assert HasEntry(t, d, Leaf(p));
    StepLive(t, d, Leaf(p));
    assert IsDirectory(t, d);
  }

  /** Emptiness as the driver tests it is emptiness of the tree's directory. */
  lemma EmptyIs(vol: Volume, i: nat)
    requires Mounted(vol) && 1 <= i <= vol.geo.inodes && IsDir(vol.inodes[i])
    ensures DirShape(vol.inodes[i], vol.blocks) && (OnlyDotNames(Names(vol.View(), i)) <==> EmptyDir(Namespace(vol), i))
  {
    hide Sound, Tidy, Linked, DirShape;
    assert Namespace(vol).names[i] == Names(vol.View(), i);
  }

  /** Which error ext2_unlink reports, in the order it tests (fs/ext2/write.c:176-190). */
  ghost function UnlinkCode(t: Tree, p: Path, isDir: bool): Errno {
    match Target(t, p)
    case Nowhere => ENOENT
    case At(i) =>
      if i !in t.names then if isDir then ENOTDIR else Ok
      else if !isDir then EISDIR
      else if EmptyDir(t, i) then Ok else ENOTEMPTY
  }

  /** The target is gone: an emptied directory, or one link of a file. */
  ghost predicate Gone(t: Tree, v: Vol, w: Vol, meta: set<nat>, first: nat, p: Path) {
    && ParentOf(t, p).At? && Target(t, p).At?
    && var d, i := ParentOf(t, p).ino, Target(t, p).ino;
       if i in t.names then Intact(w, meta, first) && DirGone(v, w, d, Leaf(p), i)
       else FileGone(v, w, meta, first, d, Leaf(p), i)
  }

  /** ext2_unlink (fs/ext2/write.c:171-215) */
  method Unlink(vol: Volume, p: Path, isDir: bool) returns (rc: Errno)
    requires Mounted(vol) && Canonical(p)
    modifies vol
    ensures vol.Valid() && vol.Books() == old(vol.Books())
    ensures rc == UnlinkCode(old(Namespace(vol)), p, isDir)
    ensures rc != Ok ==> vol.View() == old(vol.View())
    ensures rc == Ok ==> Gone(old(Namespace(vol)), old(vol.View()), vol.View(), vol.meta, vol.geo.first, p)
  {
    hide Items, Intact, Walk, FileGone, DirGone, Holds, Names, DirShape, OnlyDotNames, EmptyDir, Plain;
    if !Splits(p) {
      return ENOENT;
    }
    var ok, d := PathToInode(vol, Parent(p));
    WalkByParent(Namespace(vol), p);
    if !ok {
      return ENOENT;
    }
    MountedIsReady(vol);
    var found, i := DirLookup(vol, d, Leaf(p));
    LookupIsStep(vol, d, Leaf(p));
    if !found {
      return ENOENT;
    }
    TargetHolds(vol, p);
    HoldsKinds(vol.View(), vol.meta, vol.geo.first, d, Leaf(p), i);
    HoldsBounds(vol.View(), vol.meta, vol.geo.first, d, Leaf(p), i);
    var read, n := vol.ReadInode(i);
    if isDir && !IsDir(n) {
      return ENOTDIR;
    }
    if !isDir && IsDir(n) {
      return EISDIR;
    }
    if isDir {
      var empty := DirIsEmpty(vol, i);
      EmptyIs(vol, i);
      if !empty {
        return ENOTEMPTY;
      }
      DropDirectory(vol, d, Leaf(p), i);
    } else {
      DropFile(vol, d, Leaf(p), i);
    }
    return Ok;
  }

  lemma HoldsBounds(v: Vol, meta: set<nat>, first: nat, d: nat, leaf: Name, i: nat)
    requires Holds(v, meta, first, d, leaf, i)
    ensures d < |v.inodes| && i < |v.inodes|
  {
    hide Intact, Shapely;
  }
}
