/**
 * Why a fast symlink is dangerous to remove (fs/ext2/inode.c:158-184, fs/ext2/write.c:204-208):
 * its text is read as block numbers when it is freed. On a freshly formatted volume whose
 * root directory lies in block 97, the link "l" to "a" (the byte 97) does the damage.
 */
module Ext2FastLink {
  import opened Bytes
  import opened Ext2Refs
  import opened Ext2Volume
  import opened Ext2Sound
  import opened Ext2Blocks
  import opened Ext2DirBlock
  import opened Ext2DirScan
  import opened Ext2DirMap
  import opened Ext2Dir
  import opened Ext2Tree
  import opened Ext2Names
  import opened Ext2Write
  import opened Ext2Unlink
  import opened Ext2Symlink
  import opened Ext2Run

  const NAME: Name := [108]
  const TARGET: seq<byte> := [97]
  const BLOCK: nat := 97
  const LINK: nat := 3

  /** The block of a directory that holds its two dots, with the link added. */
  function RootBlock(): Block
    requires CanSplit(DotsBlock(ROOT, ROOT), 12, NAME, LINK)
  {
    Split(DotsBlock(ROOT, ROOT), 12, NAME, LINK, 7)
  }

  lemma RootBlockPlaces()
    ensures CanSplit(DotsBlock(ROOT, ROOT), 12, NAME, LINK)
    ensures var s := Slots(DotsBlock(ROOT, ROOT), 0);
            && Tiled(DotsBlock(ROOT, ROOT), 0) && FirstFit(s, Needed(NAME)) == 1 && |s| == 2 && Fits(s[1], Needed(NAME))
            && Tiled(RootBlock(), 0) && Slots(RootBlock(), 0) == PlaceAt(s, 1, NAME, LINK, 7)
  {
    hide DotsBlock, Tiled, Slots, Split, U16, U32, Reached, Ext2DirScan.At, RecordOk;
    var b := DotsBlock(ROOT, ROOT);
    DotsReads(ROOT, ROOT);
    AtStart(b);
    AtIndex(b, 0, []);
    AtStep(b, 0, []);
    assert [] + [SlotAt(b, 0)] == [SlotAt(b, 0)];
    AtIndex(b, 12, [SlotAt(b, 0)]);
    SecondRecord(b);
    SplitPlaces(b, 12, [SlotAt(b, 0)], NAME, LINK, 7);
  }

  lemma SecondRecord(b: Block)
    requires RecordOk(b, 12) && SlotAt(b, 12) == Slot(ROOT, 1012, DOTDOT, 2)
    ensures CanSplit(b, 12, NAME, LINK)
  {
    hide U16, U32;
  }

  /** The formatted volume with the link in its root directory. */
  ghost function Trapped(v: Vol): Vol
    requires LINK < |v.inodes| < 0x1_0000_0000 && BLOCK < |v.blocks| < 0x1_0000_0000
    requires CanSplit(DotsBlock(ROOT, ROOT), 12, NAME, LINK)
  {
    var u := Numbered(Formatted(v, BLOCK), LINK, FastInode(TARGET));
    u.(blocks := u.blocks[BLOCK := RootBlock()])
  }

  lemma RootHolds(v: Vol)
    requires LINK < |v.inodes| < 0x1_0000_0000 && BLOCK < |v.blocks| < 0x1_0000_0000
    ensures var u := Numbered(Formatted(v, BLOCK), LINK, FastInode(TARGET));
            && u.inodes[ROOT] == NewDirInode(BLOCK) && u.inodes[LINK] == FastInode(TARGET) && IsDir(u.inodes[ROOT])
            && u.blocks[BLOCK] == DotsBlock(ROOT, ROOT) && |u.blocks| == |v.blocks| && |u.inodes| == |v.inodes|
            && u.inodes[ROOT].size == 1024 && SlotOf(0) == 0 && Ref(u.inodes[ROOT], u.blocks, 0) == BLOCK
            && Body(u.inodes[ROOT], u.blocks) == [DotsBlock(ROOT, ROOT)]
  {
    hide DotsBlock, FastInode;
  }

  /** It is intact, with one name more than the formatted volume: the link. */
  lemma TrappedIntact(v: Vol, meta: set<nat>, first: nat)
    requires Blank(v, meta, first) && BLOCK !in v.used && first <= BLOCK < |v.blocks| && LINK < |v.inodes|
             && LINK !in v.iused
    ensures CanSplit(DotsBlock(ROOT, ROOT), 12, NAME, LINK)
    ensures LinkCreated(Formatted(v, BLOCK), Trapped(v), meta, first, ROOT, NAME, LINK, TARGET)
  {
    hide DotsBlock, Split, Tiled, Slots, Intact, Sound, Names, DirShape, Linked, KeepsOthers, NewDirInode, FastInode,
         FirstFit, PlaceAt,
      Formatted, Numbered, Unnamed, LinkText, Body, Ref, RawWords, DirChanged, LinkCreated, References;
    var f := Formatted(v, BLOCK);
    FormattedIs(v);
    var u := Numbered(f, LINK, FastInode(TARGET));
    RootBlockPlaces();
    FormattedIntact(v, meta, first, BLOCK);
    FastStep(f, meta, first, LINK, TARGET);
    RootHolds(v);
    UnnamedIs(f, u, meta, first);
    RootNames(u, meta, first);
    RootPlacement(u);
    assert Trapped(v) == u.(blocks := u.blocks[BLOCK := RootBlock()]);
    hide Trapped;
    PlaceInPlace(u, meta, first, ROOT, 0, RootBlock(), NAME, LINK, 7);
    FastIs();
    LinkNamed(f, u, Trapped(v), meta, first, ROOT, NAME, LINK, TARGET);
  }

  lemma FastIs()
    ensures var n := FastInode(TARGET); IsLnk(n) && n.links == 1 && n.size <= MAX_INLINE
  {
  }

  lemma RootPlacement(u: Vol)
    requires CanSplit(DotsBlock(ROOT, ROOT), 12, NAME, LINK)
    requires ROOT < |u.inodes| && IsDir(u.inodes[ROOT]) && DirShape(u.inodes[ROOT], u.blocks)
             && u.inodes[ROOT].size == 1024
    requires Body(u.inodes[ROOT], u.blocks) == [DotsBlock(ROOT, ROOT)]
    ensures Placement(u, ROOT, 0, RootBlock(), NAME, LINK, 7)
  {
    hide DotsBlock, Split, Tiled, Slots, DirShape, FirstFit, PlaceAt, Body, CanSplit;
    RootBlockPlaces();
  }

  lemma FormattedIs(v: Vol)
    requires LINK < |v.inodes| < 0x1_0000_0000 && BLOCK < |v.blocks| < 0x1_0000_0000
    ensures var f := Formatted(v, BLOCK);
            |f.inodes| == |v.inodes| && |f.blocks| == |v.blocks| && f.iused == v.iused + iset{ROOT}
              && f.used == v.used + iset{BLOCK}
  {
  }

  lemma UnnamedIs(v: Vol, u: Vol, meta: set<nat>, first: nat)
    requires Unnamed(v, u, meta, first, LINK)
    ensures Fs(u, meta, first)
  {
  }

  /** The root directory of the volume spells its two dots. */
  lemma RootNames(u: Vol, meta: set<nat>, first: nat)
    requires Fs(u, meta, first) && ROOT < |u.inodes| && IsDir(u.inodes[ROOT]) && u.inodes[ROOT] == NewDirInode(BLOCK)
             && BLOCK < |u.blocks|
    requires Body(u.inodes[ROOT], u.blocks) == [DotsBlock(ROOT, ROOT)]
    ensures DirShape(u.inodes[ROOT], u.blocks) && NAME !in Names(u, ROOT)
  {
    hide Sound, DotsBlock, DirOk, DirMap, Body;
    assert DirShape(u.inodes[ROOT], u.blocks);
    DotsBody(ROOT, ROOT);
    assert NAME[0] != DOT[0];
    assert |NAME| != |DOTDOT|;
  }

  /** A concrete volume of 98 blocks, block 97 free and no metadata marked. */
  ghost function Empty(): Vol {
    Vol(iset{}, iset{}, seq(4, i => ZERO_INODE), seq(98, k => ZERO_BLOCK))
  }

  lemma LinkAtRoot(t: Tree)
    requires ROOT in t.names && NAME in t.names[ROOT] && t.names[ROOT][NAME] == LINK && LINK !in t.names
    ensures ParentOf(t, [NAME]) == At(ROOT) && Target(t, [NAME]) == At(LINK) && UnlinkCode(t, [NAME], false) == Ok
  {
    assert Parent([NAME]) == [];
    WalkByParent(t, [NAME]);
  }

  /**
   * An intact volume on which removing a named file succeeds and destroys the invariant:
   * the block of the root directory is free afterwards, whatever ext2_unlink leaves.
   */
  lemma FastLinkTakesBlock() returns (x: Vol)
    ensures Intact(x, {}, 1) && Shapely(x) && UnlinkCode(TreeOf(x), [NAME], false) == Ok
    ensures ROOT < |x.inodes| && RefersTo(x.inodes[ROOT], x.blocks, BLOCK) && BLOCK in x.used
    ensures forall w :: Gone(TreeOf(x), x, w, {}, 1, [NAME]) ==> !Intact(w, {}, 1)
  {
    hide DotsBlock, Intact, Names, DirShape, Linked, KeepsOthers, NewDirInode, FastInode, Formatted, Numbered, LinkText,
         Body, Ref,
      RawWords, References, Trapped, TreeOf, Shapely, Walk, Harmless, FileGone;
    var v := Empty();
    TrappedIntact(v, {}, 1);
    x := Trapped(v);
    CreatedAt(Formatted(v, BLOCK), x);
    LinkAtRoot(TreeOf(x));
    TrappedRefs(v);
    forall w | Gone(TreeOf(x), x, w, {}, 1, [NAME]) ensures !Intact(w, {}, 1) {
      NotAfter(x, w);
    }
  }

  lemma CreatedAt(f: Vol, x: Vol)
    requires LinkCreated(f, x, {}, 1, ROOT, NAME, LINK, TARGET)
    ensures Intact(x, {}, 1) && Shapely(x) && LINK < |x.inodes| && x.inodes[LINK].links == 1
    ensures ROOT in TreeOf(x).names && NAME in TreeOf(x).names[ROOT] && TreeOf(x).names[ROOT][NAME] == LINK
            && LINK !in TreeOf(x).names
  {
    hide Intact, Names, DirShape, LinkText;
    assert !IsDir(x.inodes[LINK]);
  }

  lemma TrappedRefs(v: Vol)
    requires LINK < |v.inodes| < 0x1_0000_0000 && BLOCK < |v.blocks| < 0x1_0000_0000
    requires CanSplit(DotsBlock(ROOT, ROOT), 12, NAME, LINK)
    ensures var x := Trapped(v);
            && ROOT < |x.inodes| && RefersTo(x.inodes[ROOT], x.blocks, BLOCK) && BLOCK in x.used
            && LINK < |x.inodes| && BLOCK in RawWords(x.inodes[LINK], x.blocks)
  {
    hide DotsBlock, Split, CanSplit;
    var x := Trapped(v);
    assert Ref(x.inodes[ROOT], x.blocks, 0) == BLOCK;
    assert FastInode(TARGET).ptr[0] == BLOCK;
    assert HasPointer(x.inodes[LINK], 13, BLOCK);
  }

  lemma NotAfter(x: Vol, w: Vol)
    requires Shapely(x) && Gone(TreeOf(x), x, w, {}, 1, [NAME]) && Target(TreeOf(x), [NAME]) == At(LINK)
             && LINK !in TreeOf(x).names
    requires LINK < |x.inodes| && x.inodes[LINK].links == 1 && ROOT < |x.inodes|
    requires RefersTo(x.inodes[ROOT], x.blocks, BLOCK) && BLOCK in RawWords(x.inodes[LINK], x.blocks)
    ensures !Intact(w, {}, 1)
  {
    hide Intact, Names, DirShape, Walk, RawWords, RefersTo, TreeOf, KeepsAllBut, Roomy;
    assert !Spare(x, {}, 1, LINK, BLOCK);
  }
}
