/**
 * Directories on a volume (fs/ext2/dir.c): each directory inode's blocks are a
 * name map, and the directory operations change exactly one binding of one map.
 */
module Ext2Dir {
  import opened Bytes
  import opened Ext2Refs
  import opened Ext2Volume
  import opened Ext2Sound
  import opened Ext2Blocks
  import opened Ext2Data
  import opened Ext2DirBlock
  import opened Ext2DirScan
  import opened Ext2DirMap

  /** A directory has whole blocks, mapped without holes, whose records tile them under distinct names. */
  ghost predicate DirShape(n: Inode, blocks: seq<Block>) {
    && IsDir(n) && n.size % 1024 == 0 && n.size <= MAX_BYTES
    && (forall k: nat :: k < MAX_BLOCKS ==> (Ref(n, blocks, SlotOf(k)) != 0 <==> k < n.size / 1024))
    && DirOk(Body(n, blocks))
  }

  /** The storage invariant: sound block ownership and well-formed directories. */
  ghost predicate Fs(v: Vol, meta: set<nat>, first: nat) {
    && Sound(v, meta, first)
    && forall d: nat :: d < |v.inodes| && IsDir(v.inodes[d]) ==> DirShape(v.inodes[d], v.blocks)
  }

  /** The map directory d spells. */
  ghost function Names(v: Vol, d: nat): map<Name, nat>
    requires d < |v.inodes| && DirShape(v.inodes[d], v.blocks)
  {
    DirMap(Body(v.inodes[d], v.blocks))
  }

  /** Directory d now spells m; its kind and link count, and every other inode, are as before. */
  ghost predicate DirChanged(v: Vol, w: Vol, meta: set<nat>, first: nat, d: nat, m: map<Name, nat>) {
    && Fs(w, meta, first) && KeepsOthers(v, w, d) && w.iused == v.iused
    && d < |v.inodes| && d < |w.inodes| && IsDir(w.inodes[d])
    && w.inodes[d].mode == v.inodes[d].mode && w.inodes[d].links == v.inodes[d].links
    && Names(w, d) == m
  }

  lemma DirBlocks(n: Inode, blocks: seq<Block>)
    requires DirShape(n, blocks)
    ensures BlockCount(n) == n.size / 1024 == |Body(n, blocks)| && !IsFast(n)
  {
    hide DirOk, Ref;
  }

  /** A directory nobody touched spells what it did. */
  lemma ShapeKept(v: Vol, w: Vol, j: nat)
    requires j < |v.inodes| == |w.inodes| && KeepsInode(v, w, j) && IsDir(v.inodes[j])
             && DirShape(v.inodes[j], v.blocks)
    ensures DirShape(w.inodes[j], w.blocks) && Names(w, j) == Names(v, j)
  {
    hide Ref, Body, DirOk, DirMap;
  }

  lemma FsKept(v: Vol, w: Vol, meta: set<nat>, first: nat, d: nat)
    requires Fs(v, meta, first) && Sound(w, meta, first) && KeepsOthers(v, w, d)
    requires d < |w.inodes| && IsDir(w.inodes[d]) ==> DirShape(w.inodes[d], w.blocks)
    ensures Fs(w, meta, first)
  {
    hide DirShape, Sound;
    forall j: nat | j < |w.inodes| && IsDir(w.inodes[j]) ensures DirShape(w.inodes[j], w.blocks) {
      if j != d {
        assert KeepsInode(v, w, j);
        ShapeKept(v, w, j);
      }
    }
  }

  /** Overwriting block k of directory d by c. */
  lemma EditBlock(v: Vol, meta: set<nat>, first: nat, d: nat, k: nat, c: Block)
    requires Fs(v, meta, first) && d < |v.inodes| && IsDir(v.inodes[d]) && k < v.inodes[d].size / 1024
    requires k < |Body(v.inodes[d], v.blocks)| && DirOk(Body(v.inodes[d], v.blocks)[k := c])
    ensures k < MAX_BLOCKS
    ensures var b := Ref(v.inodes[d], v.blocks, SlotOf(k));
            && 0 < b < |v.blocks| && b !in meta
            && DirChanged(v, v.(blocks := v.blocks[b := c]), meta, first, d,
               DirMap(Body(v.inodes[d], v.blocks)[k := c]))
  {
    hide Ref, Body, DirOk, DirMap, Sound, KeepsOthers;
    var n := v.inodes[d];
    assert DirShape(n, v.blocks);
    DirBlocks(n, v.blocks);
    DataStep(v, meta, first, d, k, c);
    var b := Ref(n, v.blocks, SlotOf(k));
    var w := v.(blocks := v.blocks[b := c]);
    assert DirShape(n, w.blocks);
    FsKept(v, w, meta, first, d);
  }

  /** The body of a directory, block by block. */
  lemma BodyAt(v: Vol, meta: set<nat>, first: nat, d: nat, k: nat)
    requires Fs(v, meta, first) && d < |v.inodes| && IsDir(v.inodes[d]) && k < v.inodes[d].size / 1024
    ensures k < MAX_BLOCKS && k < |Body(v.inodes[d], v.blocks)|
    ensures var b := Ref(v.inodes[d], v.blocks, SlotOf(k));
            && 0 < b < |v.blocks| && b !in meta && Body(v.inodes[d], v.blocks)[k] == v.blocks[b]
            && Tiled(v.blocks[b], 0)
  {
    hide Ref, Tiled, Flat, Unique, Sound;
    var n := v.inodes[d];
    assert DirShape(n, v.blocks);
    DirBlocks(n, v.blocks);
    SoundMeans(v, meta, first, d, SlotOf(k));
  }

  /** inode_block_at (fs/ext2/dir.c:22-36) */
  method InodeBlockAt(vol: Volume, n: Inode, index: nat) returns (blk: nat)
    requires vol.Valid() && !IsFast(n)
             && (n.ptr[INDIRECT] != 0 ==> n.ptr[INDIRECT] < vol.geo.total && n.ptr[INDIRECT] !in vol.meta)
    ensures blk == if index < MAX_BLOCKS then Ref(n, vol.blocks, SlotOf(index)) else 0
  {
    if index < 12 {
      return n.ptr[index];
    }
    if n.ptr[INDIRECT] == 0 {
      return 0;
    }
    if index - 12 >= 256 {
      return 0;
    }
    var read, b := vol.ReadBlock(n.ptr[INDIRECT]);
    return U32(b, 4 * (index - 12));
  }

  /**
   * The volume with the bitmap bits of `lost` set as well.  The directory code reads no bitmap,
   * so what it does can be followed on a volume some of whose blocks were freed by mistake.
   */
  ghost function Restored(v: Vol, lost: iset<nat>): Vol {
    v.(used := v.used + lost)
  }

  lemma RestoredNone(v: Vol)
    ensures Restored(v, iset{}) == v
  {
    assert v.used + iset{} == v.used;
  }

  ghost predicate Ready(vol: Volume)
    reads vol
  {
    vol.Valid() && Fs(vol.View(), vol.meta, vol.geo.first)
  }

  /** The indirect block of a directory can be read. */
  lemma IndirectReadable(v: Vol, meta: set<nat>, first: nat, d: nat)
    requires Fs(v, meta, first) && d < |v.inodes| && IsDir(v.inodes[d])
    ensures var n := v.inodes[d];
            && !IsFast(n) && (n.ptr[INDIRECT] != 0 ==> n.ptr[INDIRECT] < |v.blocks| && n.ptr[INDIRECT] !in meta)
            && (n.ptr[INDIRECT] == 0 ==> n.size / 1024 <= 12)
  {
    var n := v.inodes[d];
    assert DirShape(n, v.blocks);
    hide DirOk, Sound;
    if n.ptr[INDIRECT] != 0 {
      assert Ref(n, v.blocks, INDIRECT) == n.ptr[INDIRECT];
      SoundMeans(v, meta, first, d, INDIRECT);
    } else {
      assert Ref(n, v.blocks, SlotOf(12)) == 0;
    }
  }

  /** No record of the first k blocks carries the name. */
  ghost predicate MissingBefore(body: seq<Block>, k: nat, name: Name)
    requires AllTiled(body)
  {
    forall j: nat :: j < k && j < |body| ==> FirstNamed(Slots(body[j], 0), name) == |Slots(body[j], 0)|
  }

  /** ext2_dir_lookup (fs/ext2/dir.c:75-94): by block iteration. */
  method DirLookup(vol: Volume, d: nat, name: Name) returns (found: bool, ino: nat)
    requires Ready(vol) && |name| <= 255
    ensures found <==> 1 <= d <= vol.geo.inodes && IsDir(vol.inodes[d]) && name in Names(vol.View(), d)
    ensures found ==> ino == Names(vol.View(), d)[name]
  {
    hide Ref, Sound, Tiled, Slots, FirstNamed, DirMap, Unique, Flat, Items;
    var ok, n := vol.ReadInode(d);
    if !ok || !IsDir(n) {
      return false, 0;
    }
    ghost var v := vol.View();
    ghost var body := Body(n, v.blocks);
    IndirectReadable(v, vol.meta, vol.geo.first, d);
    assert DirShape(n, v.blocks);
    DirBlocks(n, v.blocks);
    var iterated, list := IterBlocks(vol, n, n.size);
    var k: nat := 0;
    while k < |list|
      invariant k <= |list| && MissingBefore(body, k, name)
    {
      BodyAt(v, vol.meta, vol.geo.first, d, k);
      if list[k] != 0 {
        var read, b := vol.ReadBlock(list[k]);
        var hit := LookupInBlock(b, name);
        if hit != 0 {
          HitInBlock(body, k, name, hit);
          return true, hit;
        }
        MissInBlock(b, name);
      }
      k := k + 1;
    }
    NotFound(body, name);
    return false, 0;
  }

  /** A block scan that returns an inode number found the directory's binding. */
  lemma HitInBlock(body: seq<Block>, k: nat, name: Name, ino: nat)
    requires DirOk(body) && k < |body| && ino != 0
    requires var s := Slots(body[k], 0); var j := FirstNamed(s, name); ino == if j < |s| then s[j].ino else 0
    ensures name in DirMap(body) && DirMap(body)[name] == ino
  {
    hide Tiled, Slots, FirstNamed, Flat, Bindings;
    FoundInBlock(body, k, name);
  }

  lemma MissInBlock(b: Block, name: Name)
    requires Tiled(b, 0)
    requires var s := Slots(b, 0); var j := FirstNamed(s, name); 0 == if j < |s| then s[j].ino else 0
    ensures FirstNamed(Slots(b, 0), name) == |Slots(b, 0)|
  {
    hide Tiled, Slots;
  }

  /** Some block of directory d has room for the name. */
  ghost predicate RoomFor(v: Vol, d: nat, name: Name)
    requires d < |v.inodes| && DirShape(v.inodes[d], v.blocks)
  {
    HasRoom(Body(v.inodes[d], v.blocks), name)
  }

  /** The only block that differs is a data block of directory d. */
  ghost predicate OneBlockEdited(v: Vol, w: Vol, d: nat) {
    d < |v.inodes| && exists k: nat, c: Block :: EditedAt(v, w, d, k, c)
  }

  ghost predicate EditedAt(v: Vol, w: Vol, d: nat, k: nat, c: Block)
    requires d < |v.inodes|
  {
    && k < MAX_BLOCKS && 0 < Ref(v.inodes[d], v.blocks, SlotOf(k)) < |v.blocks|
    && w == v.(blocks := v.blocks[Ref(v.inodes[d], v.blocks, SlotOf(k)) := c])
  }

  /** ext2_dir_remove (fs/ext2/dir.c:295-336): by block index. */
  method DirRemove(vol: Volume, d: nat, name: Name) returns (ok: bool)
    requires Ready(vol) && 1 <= d <= vol.geo.inodes && IsDir(vol.inodes[d]) && |name| <= 255
    modifies vol
    ensures Ready(vol) && vol.Books() == old(vol.Books())
    ensures ok <==> name in old(Names(vol.View(), d))
    ensures !ok ==> vol.View() == old(vol.View())
    ensures vol.inodes == old(vol.inodes) && vol.View().used == old(vol.View()).used
    ensures ok ==>
              DirChanged(old(vol.View()), vol.View(), vol.meta, vol.geo.first, d, old(Names(vol.View(), d)) - {name})
    ensures ok ==> forall same: Name :: |same| == |name| ==> RoomFor(vol.View(), d, same)
    ensures ok ==> OneBlockEdited(old(vol.View()), vol.View(), d)
  {
    hide Sound, Items, Drifts, SuperDrift, DirChanged, RoomFor, DirShape, Names, Restored, OneBlockEdited;
    RestoredNone(vol.View());
    ok := RemoveEntry(vol, iset{}, d, name);
    RestoredNone(vol.View());
  }

  /** The same, whichever blocks the bitmap lost before. */
  method RemoveEntry(vol: Volume, ghost lost: iset<nat>, d: nat, name: Name) returns (ok: bool)
    requires vol.Valid() && Fs(Restored(vol.View(), lost), vol.meta, vol.geo.first)
    requires 1 <= d <= vol.geo.inodes && IsDir(vol.inodes[d]) && |name| <= 255
    modifies vol
    ensures vol.Valid() && vol.Books() == old(vol.Books())
    ensures Fs(Restored(vol.View(), lost), vol.meta, vol.geo.first)
    ensures ok <==> name in old(Names(Restored(vol.View(), lost), d))
    ensures !ok ==> vol.View() == old(vol.View())
    ensures vol.inodes == old(vol.inodes) && vol.View().used == old(vol.View()).used
    ensures ok ==>
              DirChanged(old(Restored(vol.View(), lost)), Restored(vol.View(), lost), vol.meta, vol.geo.first, d,
              old(Names(Restored(vol.View(), lost), d)) - {name})
    ensures ok ==> forall same: Name :: |same| == |name| ==> RoomFor(Restored(vol.View(), lost), d, same)
    ensures ok ==> OneBlockEdited(old(Restored(vol.View(), lost)), Restored(vol.View(), lost), d)
  {
    hide Ref, Sound, Items, Drifts, SuperDrift, DirChanged, HasRoom, DirShape, Removal, DirMap, KeepsOthers, Body;
    var read, n := vol.ReadInode(d);
    ghost var v := Restored(vol.View(), lost);
    var found, k, blk, c := FindRemoval(vol, lost, d, n, name);
    if !found {
      return false;
    }
    RemoveInPlace(v, vol.meta, vol.geo.first, d, k, c, name);
    var wrote := vol.WriteBlock(blk, c);
    var stored := vol.WriteInode(d, n);
    assert vol.inodes == v.inodes;
    ghost var w := v.(blocks := v.blocks[blk := c]);
    assert Restored(vol.View(), lost) == w;
    assert EditedAt(v, w, d, k, c);
    ChangedIsFs(v, w, vol.meta, vol.geo.first, d, Names(v, d) - {name});
    return stored;
  }

  lemma ChangedIsFs(v: Vol, w: Vol, meta: set<nat>, first: nat, d: nat, m: map<Name, nat>)
    requires DirChanged(v, w, meta, first, d, m)
    ensures Fs(w, meta, first) && d < |w.inodes| && IsDir(w.inodes[d]) && DirShape(w.inodes[d], w.blocks)
            && Names(w, d) == m
    ensures w.iused == v.iused
  {
    hide DirShape, Sound, KeepsOthers, Body;
  }

  /** Block k of directory d, rewritten as c, loses the record of the name. */
  ghost predicate Removal(v: Vol, d: nat, k: nat, c: Block, name: Name)
    requires d < |v.inodes| && IsDir(v.inodes[d]) && DirShape(v.inodes[d], v.blocks)
  {
    && k < v.inodes[d].size / 1024 && k < |Body(v.inodes[d], v.blocks)|
    && var s := Slots(Body(v.inodes[d], v.blocks)[k], 0);
       var j := FirstNamed(s, name);
       j < |s| && Tiled(c, 0) && Slots(c, 0) == RemoveAt(s, j)
  }

  /** The search of fs/ext2/dir.c:304-326, up to the rewritten block. */
  method FindRemoval(vol: Volume, ghost lost: iset<nat>, d: nat, n: Inode, name: Name)
    returns (found: bool, k: nat, blk: nat, c: Block)
    requires vol.Valid() && Fs(Restored(vol.View(), lost), vol.meta, vol.geo.first)
    requires 1 <= d <= vol.geo.inodes && n == vol.inodes[d] && IsDir(n) && |name| <= 255
    ensures found <==> name in Names(Restored(vol.View(), lost), d)
    ensures found ==> k < MAX_BLOCKS && Removal(Restored(vol.View(), lost), d, k, c, name)
    ensures found ==> 0 < blk < vol.geo.total && blk !in vol.meta && blk == Ref(n, vol.blocks, SlotOf(k))
  {
    hide Ref, Sound, Tiled, Slots, FirstNamed, DirMap, Unique, Flat, Items, RemoveAt;
    ghost var v := Restored(vol.View(), lost);
    ghost var body := Body(n, v.blocks);
    IndirectReadable(v, vol.meta, vol.geo.first, d);
    assert DirShape(n, v.blocks);
    DirBlocks(n, v.blocks);
    var nblocks := n.size / BLOCK_SIZE;
    k := 0;
    while k < nblocks
      invariant k <= nblocks && MissingBefore(body, k, name)
    {
      BodyAt(v, vol.meta, vol.geo.first, d, k);
      blk := InodeBlockAt(vol, n, k);
      if blk != 0 {
        var readable, b := vol.ReadBlock(blk);
        found, c := RemoveFromBlock(b, name);
        if found {
          FoundInBlock(body, k, name);
          return;
        }
      }
      k := k + 1;
    }
    NotFound(body, name);
    return false, 0, 0, ZERO_BLOCK;
  }

  /** Removing the record of a name from block k of directory d. */
  lemma RemoveInPlace(v: Vol, meta: set<nat>, first: nat, d: nat, k: nat, c: Block, name: Name)
    requires Fs(v, meta, first) && d < |v.inodes| && IsDir(v.inodes[d]) && Removal(v, d, k, c, name)
    ensures k < MAX_BLOCKS
    ensures var w := v.(blocks := v.blocks[Ref(v.inodes[d], v.blocks, SlotOf(k)) := c]);
            && name in Names(v, d) && DirChanged(v, w, meta, first, d, Names(v, d) - {name})
            && forall same: Name :: |same| == |name| ==> RoomFor(w, d, same)
  {
    hide Ref, Sound, Tiled, Slots, FirstNamed, DirMap, Unique, Flat, RemoveAt, HasRoom, Body;
    var n := v.inodes[d];
    assert DirShape(n, v.blocks);
    var body := Body(n, v.blocks);
    var s := Slots(body[k], 0);
    var j := FirstNamed(s, name);
    NamedAt(s, name);
    RemoveEffect(body, k, j, c);
    EditBlock(v, meta, first, d, k, c);
    BodyEdited(v, meta, first, d, k, c);
    forall same: Name | |same| == |name| ensures HasRoom(body[k := c], same) {
      RoomAfterRemove(body, k, j, c, same);
    }
  }

  lemma NamedAt(s: seq<Slot>, name: Name)
    ensures var j := FirstNamed(s, name); j < |s| ==> s[j].ino != 0 && s[j].name == name
  {
  }

  lemma BodyEdited(v: Vol, meta: set<nat>, first: nat, d: nat, k: nat, c: Block)
    requires Fs(v, meta, first) && d < |v.inodes| && IsDir(v.inodes[d]) && k < v.inodes[d].size / 1024
    ensures k < MAX_BLOCKS && k < |Body(v.inodes[d], v.blocks)|
    ensures var b := Ref(v.inodes[d], v.blocks, SlotOf(k));
            0 < b < |v.blocks| && Body(v.inodes[d], v.blocks[b := c]) == Body(v.inodes[d], v.blocks)[k := c]
  {
    hide Ref, Sound, Body, DirOk;
    assert DirShape(v.inodes[d], v.blocks);
    DirBlocks(v.inodes[d], v.blocks);
    DataStep(v, meta, first, d, k, c);
  }

  // ---- growth ----

  /** The directory with its new last block filled and its size updated. */
  ghost function Grown(x: Vol, d: nat, b: nat, c: Block): Vol
    requires d < |x.inodes| && b < |x.blocks|
  {
    x.(inodes := x.inodes[d := x.inodes[d].(size := x.inodes[d].size + 1024)], blocks := x.blocks[b := c])
  }

  /** Sizes do not matter to references. */
  lemma SizeRefs(n: Inode, blocks: seq<Block>, size: nat)
    ensures forall s: nat :: s < SLOTS ==> Ref(n.(size := size), blocks, s) == Ref(n, blocks, s)
  {
  }

  lemma GrownSound(x: Vol, meta: set<nat>, first: nat, d: nat, k: nat, b: nat, c: Block)
    requires Sound(x, meta, first) && d < |x.inodes| && k < MAX_BLOCKS && b != 0
             && Ref(x.inodes[d], x.blocks, SlotOf(k)) == b
    ensures b < |x.blocks| && Sound(Grown(x, d, b, c), meta, first) && KeepsOthers(x, Grown(x, d, b, c), d)
    ensures var z := Grown(x, d, b, c); forall s: nat :: s < SLOTS ==>
              Ref(z.inodes[d], z.blocks, s) == Ref(x.inodes[d], x.blocks, s)
  {
    hide Ref, Body, Sound, KeepsOthers;
    DataStep(x, meta, first, d, k, c);
    var y := x.(blocks := x.blocks[b := c]);
    var n := x.inodes[d];
    SizeRefs(n, y.blocks, n.size + 1024);
    SameStep(y, meta, first, d, n.(size := n.size + 1024));
    KeepsTransitive(x, y, Grown(x, d, b, c), d);
  }

  /** Block by block, the grown directory is the old one and the new block. */
  lemma GrownBody(v: Vol, u: Vol, x: Vol, meta: set<nat>, first: nat, d: nat, b: nat, c: Block)
    requires Fs(v, meta, first) && d < |v.inodes| && IsDir(v.inodes[d]) && b !in v.used && first <= b < |v.blocks|
             && first > 0
    requires u == v.(used := v.used + iset{b}, blocks := v.blocks[b := ZERO_BLOCK])
    requires Added(u, x, meta, first, d, v.inodes[d].size / 1024, b)
    ensures var z := Grown(x, d, b, c);
            && Body(z.inodes[d], z.blocks) == Body(v.inodes[d], v.blocks) + [c]
            && forall k: nat :: k < MAX_BLOCKS ==>
                 (Ref(z.inodes[d], z.blocks, SlotOf(k)) != 0 <==> k < z.inodes[d].size / 1024)
  {
    hide Ref, Sound, DirOk, DataBlock, References;
    var n, n', nb := v.inodes[d], x.inodes[d], v.inodes[d].size / 1024;
    var z := Grown(x, d, b, c);
    assert DirShape(n, v.blocks);
    DirBlocks(n, v.blocks);
    assert KeepsOthers(u, x, d);
    GrownSound(x, meta, first, d, nb, b, c);
    forall k: nat | k < MAX_BLOCKS
      ensures Ref(z.inodes[d], z.blocks, SlotOf(k)) != 0 <==> k < nb + 1
      ensures k < nb ==> DataBlock(z.inodes[d], z.blocks, k) == DataBlock(n, v.blocks, k)
      ensures k == nb ==> DataBlock(z.inodes[d], z.blocks, k) == c
    {
      GrownAt(v, u, x, meta, first, d, b, c, k);
    }
    assert BlockCount(z.inodes[d]) == nb + 1;
    var before, after := Body(n, v.blocks), Body(z.inodes[d], z.blocks);
    assert forall k :: 0 <= k < nb + 1 ==> after[k] == (before + [c])[k];
  }

  lemma GrownAt(v: Vol, u: Vol, x: Vol, meta: set<nat>, first: nat, d: nat, b: nat, c: Block, k: nat)
    requires Fs(v, meta, first) && d < |v.inodes| && IsDir(v.inodes[d]) && b !in v.used && first <= b < |v.blocks|
             && first > 0
    requires u == v.(used := v.used + iset{b}, blocks := v.blocks[b := ZERO_BLOCK])
    requires Added(u, x, meta, first, d, v.inodes[d].size / 1024, b) && k < MAX_BLOCKS
    ensures var z, nb := Grown(x, d, b, c), v.inodes[d].size / 1024;
            && (Ref(z.inodes[d], z.blocks, SlotOf(k)) != 0 <==> k < nb + 1)
            && (k < nb ==> DataBlock(z.inodes[d], z.blocks, k) == DataBlock(v.inodes[d], v.blocks, k))
            && (k == nb ==> DataBlock(z.inodes[d], z.blocks, k) == c)
  {
    assert KeepsOthers(u, x, d);
    hide Ref, Sound, DirOk, References, KeepsOthers;
    var n, nb := v.inodes[d], v.inodes[d].size / 1024;
    assert DirShape(n, v.blocks);
    GrownSound(x, meta, first, d, nb, b, c);
    if k != nb {
      AllocStep(v, meta, first, b, d);
      NotReferred(v, meta, first, d, b);
      assert Ref(n, v.blocks, SlotOf(k)) != b;
      assert SameDataAt(n, u.blocks, x.inodes[d], x.blocks, k);
    }
  }

  /** ext2_dir_insert when no block had room: the new block's only record is the new binding. */
  lemma GrowDir(v: Vol, u: Vol, x: Vol, meta: set<nat>, first: nat, d: nat, b: nat, name: Name, ino: nat, ft: byte)
    requires Fs(v, meta, first) && d < |v.inodes| && IsDir(v.inodes[d]) && b !in v.used && first <= b < |v.blocks|
             && first > 0
    requires u == v.(used := v.used + iset{b}, blocks := v.blocks[b := ZERO_BLOCK])
    requires Added(u, x, meta, first, d, v.inodes[d].size / 1024, b) && x.iused == v.iused
    requires 0 < ino < 0x1_0000_0000 && 1 <= |name| <= 255 && name !in Names(v, d)
    ensures b < |x.blocks|
    ensures DirChanged(v, Grown(x, d, b, SoloBlock(name, ino, ft)), meta, first, d, Names(v, d)[name := ino])
  {
    hide Ref, Sound, DirOk, References, SoloBlock, Body, DirMap, SameData;
    var c := SoloBlock(name, ino, ft);
    var n, nb := v.inodes[d], v.inodes[d].size / 1024;
    assert DirShape(n, v.blocks);
    AllocStep(v, meta, first, b, d);
    hide KeepsOthers;
    var z := Grown(x, d, b, c);
    GrownSound(x, meta, first, d, nb, b, c);
    KeepsTransitive(v, u, x, d);
    KeepsTransitive(v, x, z, d);
    GrownBody(v, u, x, meta, first, d, b, c);
    SoloEntries(name, ino, ft);
    GrowEffect(Body(n, v.blocks), c, name, ino);
    assert DirShape(z.inodes[d], z.blocks);
    FsKept(v, z, meta, first, d);
  }

  lemma SoloEntries(name: Name, ino: nat, ft: byte)
    requires 0 < ino < 0x1_0000_0000 && 1 <= |name| <= 255
    ensures var c := SoloBlock(name, ino, ft); Tiled(c, 0) && EntriesOf(c) == [Entry(name, ino)]
  {
    hide SoloBlock, Tiled, Slots;
    SoloReads(name, ino, ft);
    LiveSingle(Slot(ino, 1024, name, ft));
  }

  // ---- insertion ----

  /** Block k of directory d, rewritten as c, gains the record of the name. */
  ghost predicate Placement(v: Vol, d: nat, k: nat, c: Block, name: Name, ino: nat, ft: byte)
    requires d < |v.inodes| && IsDir(v.inodes[d]) && DirShape(v.inodes[d], v.blocks)
  {
    && k < v.inodes[d].size / 1024 && k < |Body(v.inodes[d], v.blocks)|
    && var s := Slots(Body(v.inodes[d], v.blocks)[k], 0);
       var j := FirstFit(s, Needed(name));
       j < |s| && Tiled(c, 0) && Slots(c, 0) == PlaceAt(s, j, name, ino, ft)
  }

  ghost predicate FullBefore(body: seq<Block>, k: nat, name: Name)
    requires AllTiled(body)
  {
    forall j: nat :: j < k && j < |body| ==> FirstFit(Slots(body[j], 0), Needed(name)) == |Slots(body[j], 0)|
  }

  /** The search of fs/ext2/dir.c:223-266, up to the rewritten block. */
  method FindPlacement(vol: Volume, ghost lost: iset<nat>, d: nat, n: Inode, name: Name, ino: nat, ft: byte)
    returns (found: bool, k: nat, blk: nat, c: Block)
    requires vol.Valid() && Fs(Restored(vol.View(), lost), vol.meta, vol.geo.first)
    requires 1 <= d <= vol.geo.inodes && n == vol.inodes[d] && IsDir(n)
    requires 1 <= |name| <= 255 && 0 < ino < 0x1_0000_0000
    ensures found <==> RoomFor(Restored(vol.View(), lost), d, name)
    ensures found ==> k < MAX_BLOCKS && Placement(Restored(vol.View(), lost), d, k, c, name, ino, ft)
    ensures found ==> 0 < blk < vol.geo.total && blk !in vol.meta && blk == Ref(n, vol.blocks, SlotOf(k))
  {
    hide Ref, Sound, Tiled, Slots, FirstFit, Unique, Flat, Items, PlaceAt;
    ghost var v := Restored(vol.View(), lost);
    ghost var body := Body(n, v.blocks);
    IndirectReadable(v, vol.meta, vol.geo.first, d);
    assert DirShape(n, v.blocks);
    DirBlocks(n, v.blocks);
    var nblocks := n.size / BLOCK_SIZE;
    k := 0;
    while k < nblocks
      invariant k <= nblocks && FullBefore(body, k, name)
    {
      BodyAt(v, vol.meta, vol.geo.first, d, k);
      blk := InodeBlockAt(vol, n, k);
      if blk != 0 {
        var readable, b := vol.ReadBlock(blk);
        found, c := PlaceInBlock(b, name, ino, ft);
        if found {
          return;
        }
      }
      k := k + 1;
    }
    return false, 0, 0, ZERO_BLOCK;
  }

  lemma PlaceInPlace(v: Vol, meta: set<nat>, first: nat, d: nat, k: nat, c: Block, name: Name, ino: nat, ft: byte)
    requires Fs(v, meta, first) && d < |v.inodes| && IsDir(v.inodes[d]) && Placement(v, d, k, c, name, ino, ft)
    requires ino != 0 && name !in Names(v, d)
    ensures k < MAX_BLOCKS
    ensures var w := v.(blocks := v.blocks[Ref(v.inodes[d], v.blocks, SlotOf(k)) := c]);
            DirChanged(v, w, meta, first, d, Names(v, d)[name := ino])
  {
    hide Ref, Sound, Tiled, Slots, FirstFit, DirMap, Unique, Flat, PlaceAt, Body;
    var body := Body(v.inodes[d], v.blocks);
    assert DirShape(v.inodes[d], v.blocks);
    var j := FirstFit(Slots(body[k], 0), Needed(name));
    PlaceEffect(body, k, j, c, name, ino, ft);
    EditBlock(v, meta, first, d, k, c);
  }

  /** Nothing is different but at most one more block marked in use. */
  ghost predicate OnlyLeaked(v: Vol, w: Vol, meta: set<nat>, first: nat) {
    && Fs(w, meta, first) && w.inodes == v.inodes && w.iused == v.iused && KeepsOthers(v, w, |v.inodes|)
    && (w.used == v.used || exists b: nat :: b !in v.used && w.used == v.used + iset{b})
  }

  /**
   * A directory can take one more block: it is below 268 blocks and enough blocks are left, one
   * more for a missing indirect block.
   */
  predicate CanGrow(n: Inode, left: nat) { left > 0 && Wires(n.size / 1024, n, left - 1) }

  /** A name can be added to directory d with `left` blocks on offer: some block has room, or the directory can grow. */
  ghost predicate Insertable(v: Vol, d: nat, name: Name, left: nat)
    requires d < |v.inodes| && DirShape(v.inodes[d], v.blocks)
  {
    RoomFor(v, d, name) || CanGrow(v.inodes[d], left)
  }

  /** d is a directory that can take the name. */
  ghost predicate Takes(v: Vol, d: nat, name: Name, left: nat) {
    d < |v.inodes| && IsDir(v.inodes[d]) && DirShape(v.inodes[d], v.blocks) && Insertable(v, d, name, left)
  }

  /** An inode that is kept takes what it took. */
  lemma TakesKept(v: Vol, u: Vol, d: nat, name: Name, left: nat)
    requires |u.inodes| == |v.inodes| && (d < |v.inodes| ==> KeepsInode(v, u, d))
    ensures Takes(u, d, name, left) <==> Takes(v, d, name, left)
  {
    hide Body, Ref, HasRoom, CanGrow;
    if d < |v.inodes| && IsDir(v.inodes[d]) {
      ShapeSame(v, u, d);
    }
  }

  lemma ShapeSame(v: Vol, u: Vol, d: nat)
    requires |u.inodes| == |v.inodes| && d < |v.inodes| && KeepsInode(v, u, d)
    ensures DirShape(u.inodes[d], u.blocks) <==> DirShape(v.inodes[d], v.blocks)
  {
    hide Body, Ref, DirOk;
    forall k: nat | k < MAX_BLOCKS
        ensures Ref(u.inodes[d], u.blocks, SlotOf(k)) == Ref(v.inodes[d], v.blocks, SlotOf(k)) {
    }
  }

  /** ext2_dir_insert (fs/ext2/dir.c:210-293); the callers have checked that the name is absent. */
  method DirInsert(vol: Volume, d: nat, name: Name, ino: nat, ft: byte) returns (ok: bool)
    requires Ready(vol) && 0 < ino < 0x1_0000_0000
    requires 1 <= d <= vol.geo.inodes && IsDir(vol.inodes[d]) ==> name !in Names(vol.View(), d)
    modifies vol
    ensures Ready(vol) && vol.Books() == old(vol.Books())
    ensures ok ==> 1 <= d <= vol.geo.inodes && old(IsDir(vol.inodes[d])) && 1 <= |name| <= 255
    ensures ok ==>
              DirChanged(old(vol.View()), vol.View(), vol.meta, vol.geo.first, d,
              old(Names(vol.View(), d))[name := ino])
    ensures !ok ==> OnlyLeaked(old(vol.View()), vol.View(), vol.meta, vol.geo.first)
    ensures 1 <= d <= vol.geo.inodes && old(IsDir(vol.inodes[d])) && 1 <= |name| <= 255
            && old(RoomFor(vol.View(), d, name)) ==>
              ok && vol.inodes == old(vol.inodes) && vol.View().used == old(vol.View()).used
    ensures ok <==> 1 <= d <= vol.geo.inodes && 1 <= |name| <= 255
                    && Takes(old(vol.View()), d, name, BlocksLeft(vol.geo, vol.Books(), old(vol.View()).used))
  {
    hide Sound, Items, Drifts, SuperDrift, DirChanged, DirShape, Names, RoomFor, OnlyLeaked, BlocksLeft, Takes,
         Restored,
         OneBlockEdited;
    RestoredNone(vol.View());
    ok := InsertEntry(vol, iset{}, d, name, ino, ft);
    RestoredNone(vol.View());
  }

  /** The directory has room for the name without a new block. */
  ghost predicate InPlace(v: Vol, d: nat, name: Name) {
    && 1 <= d < |v.inodes| && IsDir(v.inodes[d]) && DirShape(v.inodes[d], v.blocks) && 1 <= |name| <= 255
    && RoomFor(v, d, name)
  }

  /** The same, whichever blocks the bitmap lost before; then there must be room without a new block. */
  method InsertEntry(vol: Volume, ghost lost: iset<nat>, d: nat, name: Name, ino: nat, ft: byte) returns (ok: bool)
    requires vol.Valid() && Fs(Restored(vol.View(), lost), vol.meta, vol.geo.first) && 0 < ino < 0x1_0000_0000
    requires 1 <= d <= vol.geo.inodes && IsDir(vol.inodes[d]) ==> name !in Names(Restored(vol.View(), lost), d)
    requires lost != iset{} ==> InPlace(Restored(vol.View(), lost), d, name)
    modifies vol
    ensures vol.Valid() && vol.Books() == old(vol.Books())
    ensures Fs(Restored(vol.View(), lost), vol.meta, vol.geo.first)
    ensures ok ==> 1 <= d <= vol.geo.inodes && old(IsDir(vol.inodes[d])) && 1 <= |name| <= 255
    ensures ok ==>
              DirChanged(old(Restored(vol.View(), lost)), Restored(vol.View(), lost), vol.meta, vol.geo.first, d,
              old(Names(Restored(vol.View(), lost), d))[name := ino])
    ensures !ok ==> OnlyLeaked(old(Restored(vol.View(), lost)), Restored(vol.View(), lost), vol.meta, vol.geo.first)
    ensures old(InPlace(Restored(vol.View(), lost), d, name)) ==>
              && ok && vol.inodes == old(vol.inodes) && vol.View().used == old(vol.View()).used
              && OneBlockEdited(old(Restored(vol.View(), lost)), Restored(vol.View(), lost), d)
    ensures ok <==> 1 <= d <= vol.geo.inodes && 1 <= |name| <= 255
                    && Takes(old(Restored(vol.View(), lost)), d, name,
                       BlocksLeft(vol.geo, vol.Books(), old(vol.View()).used))
  {
    hide Ref, Sound, Items, Drifts, SuperDrift, DirChanged, DirShape, Placement, DirMap, KeepsOthers, Body, HasRoom,
         OnlyLeaked, BlocksLeft,
      CanGrow;
    ghost var v := Restored(vol.View(), lost);
    ghost var meta, first := vol.meta, vol.geo.first;
    NothingLeaked(v, meta, first);
    var read, n := vol.ReadInode(d);
    if !read || !IsDir(n) || |name| == 0 || |name| > 255 {
      return false;
    }
    var found, k, blk, c := FindPlacement(vol, lost, d, n, name, ino, ft);
    if found {
      PlaceInPlace(v, meta, first, d, k, c, name, ino, ft);
      var wrote := vol.WriteBlock(blk, c);
      ok := vol.WriteInode(d, n);
      assert vol.inodes == v.inodes;
      assert Restored(vol.View(), lost) == v.(blocks := v.blocks[blk := c]);
      assert EditedAt(v, Restored(vol.View(), lost), d, k, c);
      ChangedIsFs(v, Restored(vol.View(), lost), meta, first, d, Names(v, d)[name := ino]);
      return;
    }
    RestoredNone(vol.View());
    ok := GrowInsert(vol, d, n, name, ino, ft);
    RestoredNone(vol.View());
  }

  lemma NothingLeaked(v: Vol, meta: set<nat>, first: nat)
    requires Fs(v, meta, first)
    ensures OnlyLeaked(v, v, meta, first)
  {
    hide Sound, DirShape, Body, Ref;
  }

  /** Allocating a block that then stays unreferenced. */
  lemma LeakStep(v: Vol, meta: set<nat>, first: nat, d: nat, b: nat)
    requires Fs(v, meta, first) && d < |v.inodes| && IsDir(v.inodes[d]) && b !in v.used && first <= b < |v.blocks|
    ensures var u := v.(used := v.used + iset{b}, blocks := v.blocks[b := ZERO_BLOCK]);
            && Sound(u, meta, first) && Loose(u, meta, b) && OnlyLeaked(v, u, meta, first)
            && Plain(v.inodes[d])
            && (v.inodes[d].size / 1024 < MAX_BLOCKS ==>
              Ref(v.inodes[d], u.blocks, SlotOf(v.inodes[d].size / 1024)) == 0)
  {
    hide Ref, Sound, Body, DirOk;
    var u := v.(used := v.used + iset{b}, blocks := v.blocks[b := ZERO_BLOCK]);
    assert DirShape(v.inodes[d], v.blocks);
    AllocStep(v, meta, first, b, |v.inodes|);
    FsKept(v, u, meta, first, |v.inodes|);
  }

  /** fs/ext2/dir.c:275-292: grow the directory by one block. */
  method GrowInsert(vol: Volume, d: nat, n: Inode, name: Name, ino: nat, ft: byte) returns (ok: bool)
    requires Ready(vol) && 0 < ino < 0x1_0000_0000 && 1 <= |name| <= 255
    requires 1 <= d <= vol.geo.inodes && n == vol.inodes[d] && IsDir(n) && name !in Names(vol.View(), d)
    modifies vol
    ensures Ready(vol) && vol.Books() == old(vol.Books())
    ensures ok ==>
              DirChanged(old(vol.View()), vol.View(), vol.meta, vol.geo.first, d,
              old(Names(vol.View(), d))[name := ino])
    ensures !ok ==> OnlyLeaked(old(vol.View()), vol.View(), vol.meta, vol.geo.first)
    ensures ok <==> CanGrow(n, BlocksLeft(vol.geo, vol.Books(), old(vol.View()).used))
  {
    hide Ref, Sound, Items, Drifts, SuperDrift, DirChanged, DirShape, DirMap, KeepsOthers, Body, OnlyLeaked, Added,
         Loose, Plain, SoloBlock,
      BlocksLeft, Wires;
    ghost var v := vol.View();
    ghost var meta, first := vol.meta, vol.geo.first;
    NothingLeaked(v, meta, first);
    var nblocks := n.size / BLOCK_SIZE;
    var got, blk := vol.AllocBlock();
    if !got {
      return false;
    }
    ghost var u := vol.View();
    LeakStep(v, meta, first, d, blk);
    LeakedIsFs(v, u, meta, first);
    LooseBounds(u, meta, blk);
    assert Over(u, d, n) == u by { assert u.inodes[d := n] == u.inodes; }
    var added, n' := AddBlock(vol, d, n, nblocks, blk);
    if !added {
      return false;
    }
    ghost var x := Over(vol.View(), d, n');
    GrowDir(v, u, x, meta, first, d, blk, name, ino, ft);
    var buf := SoloBlock(name, ino, ft);
    var wrote := vol.WriteBlock(blk, buf);
    var stored := vol.WriteInode(d, n'.(size := n'.size + BLOCK_SIZE));
    assert vol.View() == Grown(x, d, blk, buf);
    ChangedIsFs(v, vol.View(), meta, first, d, Names(v, d)[name := ino]);
    return stored;
  }

  lemma LeakedIsFs(v: Vol, w: Vol, meta: set<nat>, first: nat)
    requires OnlyLeaked(v, w, meta, first)
    ensures Fs(w, meta, first)
  {
    hide Sound, DirShape, KeepsOthers;
  }

  // ---- emptiness and the parent entry ----

  ghost predicate OnlyDotNames(m: map<Name, nat>) {
    forall n :: n in m ==> n in {DOT, DOTDOT}
  }

  lemma {:induction false} OnlyDotsFlat(body: seq<Block>)
    requires AllTiled(body)
    ensures OnlyDots(Flat(body)) <==> forall k: nat :: k < |body| ==> OnlyDots(EntriesOf(body[k]))
  {
    hide Tiled, EntriesOf, OnlyDots;
    if body != [] {
      OnlyDotsFlat(body[1..]);
      OnlyDotsConcat(EntriesOf(body[0]), Flat(body[1..]));
      assert forall k: nat :: k < |body| - 1 ==> body[1..][k] == body[k + 1];
      assert forall k: nat :: 0 < k < |body| ==> body[k] == body[1..][k - 1];
    } else {
      OnlyDotsNone();
    }
  }

  lemma OnlyDotsMap(body: seq<Block>)
    requires DirOk(body)
    ensures OnlyDots(Flat(body)) <==> OnlyDotNames(DirMap(body))
  {
    hide Tiled, Flat;
    var e := Flat(body);
    if OnlyDotNames(DirMap(body)) {
      forall k: nat | k < |e| ensures e[k].name in {DOT, DOTDOT} {
        BindingsAt(e, k);
      }
    }
    if OnlyDots(e) {
      forall n | n in DirMap(body) ensures n in {DOT, DOTDOT} {
        var k := BindingsKey(e, n);
      }
    }
  }

  /** The first k blocks hold no live record but "." and "..". */
  ghost predicate DotsBefore(body: seq<Block>, k: nat)
    requires AllTiled(body)
  {
    forall j: nat :: j < k && j < |body| ==> OnlyDots(EntriesOf(body[j]))
  }

  lemma DotsMeaning(body: seq<Block>)
    requires DirOk(body)
    ensures DotsBefore(body, |body|) <==> OnlyDotNames(DirMap(body))
  {
    hide Tiled, EntriesOf, OnlyDots, DirMap, Unique, Flat;
    OnlyDotsFlat(body);
    OnlyDotsMap(body);
  }

  lemma DotsStep(body: seq<Block>, k: nat, b: Block)
    requires AllTiled(body) && k < |body| && b == body[k] && DotsBefore(body, k)
    ensures OnlyDots(Live(Slots(b, 0))) ==> DotsBefore(body, k + 1)
    ensures !OnlyDots(Live(Slots(b, 0))) ==> !DotsBefore(body, |body|)
  {
    hide Tiled, Slots, OnlyDots;
  }

  /** ext2_dir_is_empty (fs/ext2/dir.c:338-365) */
  method DirIsEmpty(vol: Volume, d: nat) returns (empty: bool)
    requires Ready(vol) && (1 <= d <= vol.geo.inodes ==> IsDir(vol.inodes[d]))
    ensures empty <==> 1 <= d <= vol.geo.inodes && OnlyDotNames(Names(vol.View(), d))
  {
    hide Ref, Sound, Tiled, Slots, Live, DotsBefore, OnlyDots, OnlyDotNames, DirMap, Unique, Flat, Items;
    var read, n := vol.ReadInode(d);
    if !read {
      return false;
    }
    ghost var v := vol.View();
    ghost var body := Body(n, v.blocks);
    IndirectReadable(v, vol.meta, vol.geo.first, d);
    assert DirShape(n, v.blocks);
    DirBlocks(n, v.blocks);
    DotsMeaning(body);
    NoDotsYet(body);
    var nblocks := n.size / BLOCK_SIZE;
    var k: nat := 0;
    while k < nblocks
      invariant k <= nblocks && DotsBefore(body, k)
    {
      BodyAt(v, vol.meta, vol.geo.first, d, k);
      var blk := InodeBlockAt(vol, n, k);
      if blk != 0 {
        var readable, b := vol.ReadBlock(blk);
        var only := OnlyDotsInBlock(b);
        DotsStep(body, k, b);
        if !only {
          return false;
        }
      }
      k := k + 1;
    }
    return true;
  }

  lemma NoDotsYet(body: seq<Block>)
    requires AllTiled(body)
    ensures DotsBefore(body, 0)
  {
  }

  /** Block k of directory d, rewritten as c, has its ".." record repointed. */
  ghost predicate Repointing(v: Vol, d: nat, k: nat, c: Block, parent: nat)
    requires d < |v.inodes| && IsDir(v.inodes[d]) && DirShape(v.inodes[d], v.blocks)
  {
    && k < v.inodes[d].size / 1024 && k < |Body(v.inodes[d], v.blocks)|
    && var s := Slots(Body(v.inodes[d], v.blocks)[k], 0);
       var j := FirstNamed(s, DOTDOT);
       j < |s| && Tiled(c, 0) && Slots(c, 0) == s[j := s[j].(ino := parent)]
  }

  lemma RepointInPlace(v: Vol, meta: set<nat>, first: nat, d: nat, k: nat, c: Block, parent: nat)
    requires Fs(v, meta, first) && d < |v.inodes| && IsDir(v.inodes[d]) && Repointing(v, d, k, c, parent) && parent != 0
    ensures k < MAX_BLOCKS
    ensures var w := v.(blocks := v.blocks[Ref(v.inodes[d], v.blocks, SlotOf(k)) := c]);
            DOTDOT in Names(v, d) && DirChanged(v, w, meta, first, d, Names(v, d)[DOTDOT := parent])
  {
    hide Ref, Sound, Tiled, Slots, FirstNamed, DirMap, Unique, Flat, Body;
    var body := Body(v.inodes[d], v.blocks);
    assert DirShape(v.inodes[d], v.blocks);
    var s := Slots(body[k], 0);
    NamedAt(s, DOTDOT);
    RepointEffect(body, k, FirstNamed(s, DOTDOT), c, parent);
    EditBlock(v, meta, first, d, k, c);
  }

  /** The search of fs/ext2/dir.c:374-390, up to the rewritten block. */
  method FindParentEntry(vol: Volume, d: nat, n: Inode, parent: nat) returns (found: bool, k: nat, blk: nat, c: Block)
    requires Ready(vol) && 1 <= d <= vol.geo.inodes && n == vol.inodes[d] && IsDir(n) && 0 < parent < 0x1_0000_0000
    ensures found <==> DOTDOT in Names(vol.View(), d)
    ensures found ==> k < MAX_BLOCKS && Repointing(vol.View(), d, k, c, parent)
    ensures found ==> 0 < blk < vol.geo.total && blk !in vol.meta && blk == Ref(n, vol.blocks, SlotOf(k))
  {
    hide Ref, Sound, Tiled, Slots, FirstNamed, DirMap, Unique, Flat, Items;
    ghost var v := vol.View();
    ghost var body := Body(n, v.blocks);
    IndirectReadable(v, vol.meta, vol.geo.first, d);
    assert DirShape(n, v.blocks);
    DirBlocks(n, v.blocks);
    var nblocks := n.size / BLOCK_SIZE;
    k := 0;
    while k < nblocks
      invariant k <= nblocks && MissingBefore(body, k, DOTDOT)
    {
      BodyAt(v, vol.meta, vol.geo.first, d, k);
      blk := InodeBlockAt(vol, n, k);
      if blk != 0 {
        var readable, b := vol.ReadBlock(blk);
        found, c := SetParentInBlock(b, parent);
        if found {
          FoundInBlock(body, k, DOTDOT);
          return;
        }
      }
      k := k + 1;
    }
    NotFound(body, DOTDOT);
    return false, 0, 0, ZERO_BLOCK;
  }

  /** ext2_dir_set_parent (fs/ext2/dir.c:367-397) */
  method DirSetParent(vol: Volume, d: nat, parent: nat) returns (ok: bool)
    requires Ready(vol) && 1 <= d <= vol.geo.inodes && IsDir(vol.inodes[d]) && 0 < parent < 0x1_0000_0000
    modifies vol
    ensures Ready(vol) && vol.Books() == old(vol.Books())
    ensures ok <==> DOTDOT in old(Names(vol.View(), d))
    ensures !ok ==> vol.View() == old(vol.View())
    ensures vol.inodes == old(vol.inodes) && vol.View().used == old(vol.View()).used
    ensures ok ==>
              DirChanged(old(vol.View()), vol.View(), vol.meta, vol.geo.first, d,
              old(Names(vol.View(), d))[DOTDOT := parent])
  {
    hide Ref, Sound, Items, Drifts, SuperDrift, DirChanged, DirShape, Repointing, DirMap, KeepsOthers, Body;
    var read, n := vol.ReadInode(d);
    ghost var v := vol.View();
    var found, k, blk, c := FindParentEntry(vol, d, n, parent);
    if !found {
      return false;
    }
    RepointInPlace(v, vol.meta, vol.geo.first, d, k, c, parent);
    ok := vol.WriteBlock(blk, c);
    ghost var w := v.(blocks := v.blocks[blk := c]);
    assert vol.View() == w;
    ChangedIsFs(v, w, vol.meta, vol.geo.first, d, Names(v, d)[DOTDOT := parent]);
  }
}
