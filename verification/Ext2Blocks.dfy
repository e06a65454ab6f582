/**
 * The block map of an inode (fs/ext2/inode.c): adding a block, freeing them all.
 *
 * An inode being edited in memory is tracked as an overlay: the volume with that
 * inode-table entry replaced.
 */
module Ext2Blocks {
  import opened Bytes
  import opened Ext2Refs
  import opened Ext2Volume
  import opened Ext2Sound

  /** The volume as it would be with inode `ino` stored as n. */
  ghost function Over(v: Vol, ino: nat, n: Inode): Vol
    requires ino < |v.inodes|
  {
    v.(inodes := v.inodes[ino := n])
  }

  /** The volume with overlay is sound, and n's words are block numbers. */
  ghost predicate Held(vol: Volume, ino: nat, n: Inode)
    reads vol
  {
    && vol.Valid() && 1 <= ino <= vol.geo.inodes && Plain(n)
    && Sound(Over(vol.View(), ino, n), vol.meta, vol.geo.first)
  }

  /** Logical block contents other than block k are the same. */
  ghost predicate SameData(n: Inode, blocks: seq<Block>, n': Inode, blocks': seq<Block>, k: nat) {
    forall j: nat :: j < MAX_BLOCKS && j != k ==> SameDataAt(n, blocks, n', blocks', j)
  }

  ghost predicate SameDataAt(n: Inode, blocks: seq<Block>, n': Inode, blocks': seq<Block>, j: nat)
    requires j < MAX_BLOCKS
  {
    && DataBlock(n', blocks', j) == DataBlock(n, blocks, j)
    && Ref(n', blocks', SlotOf(j)) == Ref(n, blocks, SlotOf(j))
  }

  /** Inode i of v gains logical block k, stored in block b; blocks newly taken on the way belong to it too. */
  ghost predicate Added(v: Vol, w: Vol, meta: set<nat>, first: nat, i: nat, k: nat, b: nat) {
    && i < |v.inodes| && k < MAX_BLOCKS && b < |v.blocks|
    && Sound(w, meta, first) && KeepsOthers(v, w, i)
    && var n, n' := v.inodes[i], w.inodes[i];
       && Plain(n') && n'.sectors > 0 && n' == n.(ptr := n'.ptr, sectors := n'.sectors)
       && Ref(n', w.blocks, SlotOf(k)) == b && w.blocks[b] == v.blocks[b]
       && SameData(n, v.blocks, n', w.blocks, k)
       && v.used <= w.used
       && References(n', w.blocks) == References(n, v.blocks) + iset{b} + (w.used - v.used)
  }

  /** What a single new reference adds to the blocks referred to. */
  lemma GainReferences(n: Inode, blocks: seq<Block>, n': Inode, blocks': seq<Block>, t: nat, b: nat)
    requires t < SLOTS && b != 0 && Ref(n, blocks, t) == 0 && GainsRef(n, blocks, n', blocks', t, b)
    ensures References(n', blocks') == References(n, blocks) + iset{b}
  {
    hide Ref;
    assert Ref(n', blocks', t) == b;
    forall r: nat ensures RefersTo(n', blocks', r) == (r == b || RefersTo(n, blocks, r)) {
      if RefersTo(n, blocks, r) {
        var s: nat :| s < SLOTS && Ref(n, blocks, s) == r;
        assert Ref(n', blocks', s) == r;
      }
    }
  }

  /** Data blocks survive a gained reference as long as only reference blocks were rewritten. */
  lemma GainData(v: Vol, meta: set<nat>, first: nat, i: nat, n': Inode, blocks': seq<Block>, t: nat, b: nat, k: nat)
    requires Sound(v, meta, first) && i < |v.inodes| && t < SLOTS && |blocks'| == |v.blocks|
    requires GainsRef(v.inodes[i], v.blocks, n', blocks', t, b)
    requires t == INDIRECT || t == SlotOf(k)
    requires forall c: nat :: c < |v.blocks| && blocks'[c] != v.blocks[c] ==>
               c == Ref(v.inodes[i], v.blocks, INDIRECT) && c != 0
    ensures SameData(v.inodes[i], v.blocks, n', blocks', k)
  {
    hide Ref;
    var n := v.inodes[i];
    forall j: nat | j < MAX_BLOCKS && j != k ensures SameDataAt(n, v.blocks, n', blocks', j) {
      var r := Ref(n, v.blocks, SlotOf(j));
      if r != 0 {
        SoundMeans(v, meta, first, i, SlotOf(j));
      }
    }
  }

  lemma AddDirect(v: Vol, meta: set<nat>, first: nat, i: nat, k: nat, b: nat)
    requires Sound(v, meta, first) && i < |v.inodes| && Plain(v.inodes[i]) && Loose(v, meta, b) && b >= first
    requires k < INDIRECT && Ref(v.inodes[i], v.blocks, k) == 0
    ensures Added(v, v.(inodes := v.inodes[i := WithPointer(v.inodes[i], k, b)]), meta, first, i, k, b)
  {
    var n := v.inodes[i];
    var n' := WithPointer(n, k, b);
    GainDirect(n, v.blocks, k, b);
    hide Ref;
    GainStep(v, meta, first, i, n', v.blocks, k, b);
    GainReferences(n, v.blocks, n', v.blocks, k, b);
    GainData(v, meta, first, i, n', v.blocks, k, b, k);
  }

  /** Word p of inode i's indirect block is filled in. */
  function EntryFilled(v: Vol, i: nat, p: nat, b: nat): Vol
    requires i < |v.inodes| && v.inodes[i].ptr[INDIRECT] < |v.blocks| && p < 256 && b < 0x1_0000_0000
  {
    var n, ind := v.inodes[i], v.inodes[i].ptr[INDIRECT];
    v.(inodes := v.inodes[i := n.(sectors := n.sectors + SECTORS_PER_BLOCK)],
       blocks := v.blocks[ind := Put(v.blocks[ind], 4 * p, Enc32(b))])
  }

  lemma AddEntry(v: Vol, meta: set<nat>, first: nat, i: nat, p: nat, b: nat)
    requires Sound(v, meta, first) && i < |v.inodes| && Loose(v, meta, b) && b >= first
    requires !IsFast(v.inodes[i]) && v.inodes[i].ptr[INDIRECT] != 0
    requires p < 256 && Ref(v.inodes[i], v.blocks, 13 + p) == 0
    ensures first <= v.inodes[i].ptr[INDIRECT] < |v.blocks| && v.inodes[i].ptr[INDIRECT] !in meta
    ensures Added(v, EntryFilled(v, i, p, b), meta, first, i, 12 + p, b)
  {
    hide Ref, Put, Enc32, U32;
    var n, ind := v.inodes[i], v.inodes[i].ptr[INDIRECT];
    IndirectIsRef(v, meta, first, i);
    GainEntry(n, v.blocks, p, b);
    var n' := n.(sectors := n.sectors + SECTORS_PER_BLOCK);
    var blocks' := v.blocks[ind := Put(v.blocks[ind], 4 * p, Enc32(b))];
    GainStep(v, meta, first, i, n', blocks', 13 + p, b);
    GainReferences(n, v.blocks, n', blocks', 13 + p, b);
    GainData(v, meta, first, i, n', blocks', 13 + p, b, 12 + p);
  }

  lemma IndirectIsRef(v: Vol, meta: set<nat>, first: nat, i: nat)
    requires Sound(v, meta, first) && i < |v.inodes| && !IsFast(v.inodes[i]) && v.inodes[i].ptr[INDIRECT] != 0
    ensures var ind := v.inodes[i].ptr[INDIRECT];
            && first <= ind < |v.blocks| && ind !in meta && ind in v.used
            && Ref(v.inodes[i], v.blocks, INDIRECT) == ind && RefersTo(v.inodes[i], v.blocks, ind)
  {
    assert Ref(v.inodes[i], v.blocks, INDIRECT) == v.inodes[i].ptr[INDIRECT];
    hide Ref;
    SoundMeans(v, meta, first, i, INDIRECT);
  }

  /** The indirect block itself is wired in, and any other loose block stays loose. */
  lemma AddRoot(v: Vol, meta: set<nat>, first: nat, i: nat, ind: nat, b: nat)
    requires Sound(v, meta, first) && i < |v.inodes| && Plain(v.inodes[i]) && v.inodes[i].ptr[INDIRECT] == 0
    requires Loose(v, meta, ind) && ind >= first && v.blocks[ind] == ZERO_BLOCK && Loose(v, meta, b) && b != ind
    ensures var n, n' := v.inodes[i], WithPointer(v.inodes[i], INDIRECT, ind);
            var w := v.(inodes := v.inodes[i := n']);
            && Sound(w, meta, first) && Loose(w, meta, b) && KeepsOthers(v, w, i)
            && !IsFast(n') && SameData(n, v.blocks, n', v.blocks, MAX_BLOCKS)
            && (forall s: nat :: INDIRECT < s < SLOTS && Ref(n, v.blocks, s) == 0 ==> Ref(n', v.blocks, s) == 0)
            && References(n', v.blocks) == References(n, v.blocks) + iset{ind}
  {
    var n, n' := v.inodes[i], WithPointer(v.inodes[i], INDIRECT, ind);
    var w := v.(inodes := v.inodes[i := n']);
    GainIndirect(n, v.blocks, ind);
    assert Ref(n, v.blocks, INDIRECT) == 0;
    hide Ref;
    GainStep(v, meta, first, i, n', v.blocks, INDIRECT, ind);
    GainReferences(n, v.blocks, n', v.blocks, INDIRECT, ind);
    GainData(v, meta, first, i, n', v.blocks, INDIRECT, ind, MAX_BLOCKS);
    forall j: nat | j < |w.inodes| ensures !RefersTo(w.inodes[j], w.blocks, b) {
      if j == i {
        assert b !in References(n, v.blocks);
        assert b !in References(n', v.blocks);
      }
    }
  }

  /** Allocating the indirect block, wiring it, then wiring the data block, is one addition. */
  lemma AddBoth(v: Vol, meta: set<nat>, first: nat, i: nat, p: nat, ind: nat, b: nat)
    requires Sound(v, meta, first) && i < |v.inodes| && Plain(v.inodes[i]) && v.inodes[i].ptr[INDIRECT] == 0
    requires ind !in v.used && first <= ind < |v.blocks| && Loose(v, meta, b) && b >= first
    requires p < 256 && Ref(v.inodes[i], v.blocks, 13 + p) == 0
    ensures var n' := WithPointer(v.inodes[i], INDIRECT, ind);
            var w := Vol(v.used + iset{ind}, v.iused, v.inodes[i := n'], v.blocks[ind := ZERO_BLOCK]);
            && Added(v, EntryFilled(w, i, p, b), meta, first, i, 12 + p, b)
            && ind !in meta
  {
    hide Ref, Put, Enc32, KeepsOthers, SameData, Body;
    var n := v.inodes[i];
    var u := v.(used := v.used + iset{ind}, blocks := v.blocks[ind := ZERO_BLOCK]);
    AllocStep(v, meta, first, ind, i);
    StillLoose(v, u, meta, b);
    AddRoot(u, meta, first, i, ind, b);
    var n' := WithPointer(n, INDIRECT, ind);
    var w := u.(inodes := u.inodes[i := n']);
    AddEntry(w, meta, first, i, p, b);
    var x := EntryFilled(w, i, p, b);
    KeepsTransitive(v, u, w, i);
    KeepsTransitive(v, w, x, i);
    BothData(v, u, w, x, i, p);
    SameReferences(n, v.blocks, u.blocks);
  }

  lemma StillLoose(v: Vol, u: Vol, meta: set<nat>, b: nat)
    requires Loose(v, meta, b) && v.used <= u.used && v.inodes == u.inodes && |v.blocks| == |u.blocks|
    requires forall j: nat, s: nat :: j < |v.inodes| && s < SLOTS ==>
               Ref(v.inodes[j], u.blocks, s) == Ref(v.inodes[j], v.blocks, s)
    ensures Loose(u, meta, b)
  {
    hide Ref;
    forall j: nat | j < |u.inodes| ensures !RefersTo(u.inodes[j], u.blocks, b) {
      assert !RefersTo(v.inodes[j], v.blocks, b);
    }
  }

  lemma SameReferences(n: Inode, blocks: seq<Block>, after: seq<Block>)
    requires forall s: nat :: s < SLOTS ==> Ref(n, after, s) == Ref(n, blocks, s)
    ensures References(n, after) == References(n, blocks)
  {
    hide Ref;
    forall r: nat ensures RefersTo(n, after, r) == RefersTo(n, blocks, r) {
    }
  }

  lemma BothData(v: Vol, u: Vol, w: Vol, x: Vol, i: nat, p: nat)
    requires i < |v.inodes| == |w.inodes| == |x.inodes| && u.inodes == v.inodes && p < 256 && |u.blocks| == |v.blocks|
    requires forall s: nat :: s < SLOTS ==> Ref(v.inodes[i], u.blocks, s) == Ref(v.inodes[i], v.blocks, s)
    requires forall c: nat :: c < |v.blocks| && c in v.used ==> u.blocks[c] == v.blocks[c]
    requires forall s: nat :: s < SLOTS && Ref(v.inodes[i], v.blocks, s) != 0 ==>
               Ref(v.inodes[i], v.blocks, s) in v.used
    requires SameData(v.inodes[i], u.blocks, w.inodes[i], w.blocks, MAX_BLOCKS)
    requires SameData(w.inodes[i], w.blocks, x.inodes[i], x.blocks, 12 + p)
    ensures SameData(v.inodes[i], v.blocks, x.inodes[i], x.blocks, 12 + p)
  {
    hide Ref;
    var n := v.inodes[i];
    forall j: nat | j < MAX_BLOCKS && j != 12 + p ensures SameDataAt(n, v.blocks, x.inodes[i], x.blocks, j) {
      assert SameDataAt(n, u.blocks, w.inodes[i], w.blocks, j);
      assert SameDataAt(w.inodes[i], w.blocks, x.inodes[i], x.blocks, j);
    }
  }

  predicate NeedsIndirect(k: nat, n: Inode) { k >= INDIRECT && n.ptr[INDIRECT] == 0 }

  /**
   * Logical block k can be wired in: it is in the singly-indirect range, and a block is left if the
   * indirect one is missing.
   */
  predicate Wires(k: nat, n: Inode, left: nat) { k < MAX_BLOCKS && (NeedsIndirect(k, n) ==> left > 0) }

  /** ext2_inode_add_block (fs/ext2/inode.c:122-156): wire a loose block in at logical index k. */
  method AddBlock(vol: Volume, ghost ino: nat, n: Inode, k: nat, blk: nat) returns (ok: bool, n': Inode)
    requires Held(vol, ino, n) && Loose(Over(vol.View(), ino, n), vol.meta, blk) && blk >= vol.geo.first
    requires k < MAX_BLOCKS ==> Ref(n, vol.blocks, SlotOf(k)) == 0
    modifies vol
    ensures vol.Valid() && vol.Books() == old(vol.Books())
    ensures vol.inodes == old(vol.inodes) && vol.View().iused == old(vol.View()).iused
    ensures !ok ==> n' == n && vol.View() == old(vol.View())
    ensures ok ==> Added(Over(old(vol.View()), ino, n), Over(vol.View(), ino, n'), vol.meta, vol.geo.first, ino, k, blk)
    ensures ok ==> n'.sectors > 0 && n' == n.(ptr := n'.ptr, sectors := n'.sectors)
    ensures ok <==> Wires(k, n, BlocksLeft(vol.geo, vol.Books(), old(vol.View()).used))
    ensures ok ==> (n'.ptr[INDIRECT] != 0 <==> k >= INDIRECT || n.ptr[INDIRECT] != 0)
    ensures ok ==> BlocksLeft(vol.geo, vol.Books(), vol.View().used) ==
                     BlocksLeft(vol.geo, vol.Books(), old(vol.View()).used) - (if NeedsIndirect(k, n) then 1 else 0)
  {
    hide Ref, Put, Enc32, Added, Loose, Sound, Items, Drifts, SuperDrift, Plain, EntryFilled, BlocksLeft;
    ghost var v := Over(vol.View(), ino, n);
    LooseBounds(v, vol.meta, blk);
    if k < 12 {
      n' := WithPointer(n, k, blk);
      AddDirect(v, vol.meta, vol.geo.first, ino, k, blk);
      assert Over(vol.View(), ino, n') == v.(inodes := v.inodes[ino := n']);
      return true, n';
    }
    if k - 12 >= 256 {
      return false, n;
    }
    n' := n;
    if n'.ptr[INDIRECT] == 0 {
      var got, ind := vol.AllocBlock();
      if !got {
        return false, n;
      }
      n' := WithPointer(n', INDIRECT, ind);
      AddBoth(v, vol.meta, vol.geo.first, ino, k - 12, ind, blk);
      assert Over(vol.View(), ino, n') ==
               Vol(v.used + iset{ind}, v.iused, v.inodes[ino := n'], v.blocks[ind := ZERO_BLOCK]);
    } else {
      IndirectPlain(n);
      AddEntry(v, vol.meta, vol.geo.first, ino, k - 12, blk);
    }
    n' := StoreEntry(vol, ino, n', k - 12, blk);
    return true, n';
  }

  /** fs/ext2/inode.c:147-154 */
  method StoreEntry(vol: Volume, ghost ino: nat, n: Inode, p: nat, blk: nat) returns (n': Inode)
    requires vol.Valid() && 1 <= ino <= vol.geo.inodes && p < 256 && blk < 0x1_0000_0000
    requires 0 < n.ptr[INDIRECT] < vol.geo.total && n.ptr[INDIRECT] !in vol.meta
    modifies vol`blocks
    ensures vol.Valid() && vol.Books() == old(vol.Books()) && vol.View().iused == old(vol.View()).iused
    ensures Over(vol.View(), ino, n') == EntryFilled(Over(old(vol.View()), ino, n), ino, p, blk)
    ensures n' == n.(sectors := n.sectors + SECTORS_PER_BLOCK)
  {
    hide Put, Enc32, Items, Drifts, SuperDrift;
    var read, buf := vol.ReadBlock(n.ptr[INDIRECT]);
    buf := Put(buf, 4 * p, Enc32(blk));
    var wrote := vol.WriteBlock(n.ptr[INDIRECT], buf);
    n' := n.(sectors := n.sectors + SECTORS_PER_BLOCK);
  }

  lemma LooseBounds(v: Vol, meta: set<nat>, b: nat)
    requires Loose(v, meta, b)
    ensures 0 < b < |v.blocks| && b !in meta && b in v.used
  {
  }

  lemma IndirectPlain(n: Inode)
    requires Plain(n) && n.ptr[INDIRECT] != 0
    ensures !IsFast(n)
  {
  }

  // ---- freeing ----

  /** The nonzero words among the first k of i_block. */
  ghost function PointerWords(n: Inode, k: nat): iset<nat>
    requires k <= 15
  {
    iset r: nat | HasPointer(n, k, r)
  }

  ghost predicate HasPointer(n: Inode, k: nat, r: nat)
    requires k <= 15
  {
    r != 0 && exists t: nat :: t < k && n.ptr[t] == r
  }

  /** The nonzero words among the first k of an indirect block. */
  ghost function BlockWords(b: Block, k: nat): iset<nat>
    requires k <= 256
  {
    iset r: nat | HasWord(b, k, r)
  }

  ghost predicate HasWord(b: Block, k: nat, r: nat)
    requires k <= 256
  {
    r != 0 && exists t: nat :: t < k && Word(b, t) == r
  }

  function Word(b: Block, t: nat): nat
    requires t < 256
  {
    U32(b, 4 * t)
  }

  /** Every number ext2_inode_free_all_blocks hands to ext2_free_block, whatever kind of inode it is given. */
  ghost function RawWords(n: Inode, blocks: seq<Block>): iset<nat> {
    PointerWords(n, 13) + if 0 < n.ptr[INDIRECT] < |blocks| then BlockWords(blocks[n.ptr[INDIRECT]], 256) else iset{}
  }

  /** For an inode whose words are block numbers, those are exactly the blocks it refers to. */
  lemma RawIsReferences(n: Inode, blocks: seq<Block>)
    requires Plain(n)
    ensures RawWords(n, blocks) == References(n, blocks)
  {
    hide U32;
    forall r: nat | RefersTo(n, blocks, r) ensures r in RawWords(n, blocks) {
      var s: nat :| s < SLOTS && Ref(n, blocks, s) == r;
      if s <= INDIRECT {
        assert n.ptr[s] == r;
      } else {
        assert Word(blocks[n.ptr[INDIRECT]], s - 13) == r;
      }
    }
    forall r: nat | r in RawWords(n, blocks) ensures RefersTo(n, blocks, r) {
      if r in PointerWords(n, 13) {
        var t: nat :| t < 13 && n.ptr[t] == r;
        assert Ref(n, blocks, t) == r;
      } else {
        var t: nat :| t < 256 && Word(blocks[n.ptr[INDIRECT]], t) == r;
        IndirectPlain(n);
        assert 4 * (13 + t - 13) == 4 * t;
        assert Ref(n, blocks, 13 + t) == r;
      }
    }
  }

  lemma PointerWordsStep(n: Inode, k: nat)
    requires k < 15
    ensures PointerWords(n, 0) == iset{}
    ensures PointerWords(n, k + 1) == PointerWords(n, k) + if n.ptr[k] == 0 then iset{} else iset{n.ptr[k]}
  {
  }

  lemma BlockWordsStep(b: Block, k: nat)
    requires k < 256
    ensures BlockWords(b, 0) == iset{}
    ensures BlockWords(b, k + 1) == BlockWords(b, k) + if Word(b, k) == 0 then iset{} else iset{Word(b, k)}
  {
    hide Word;
  }

  function Emptied(n: Inode): Inode {
    n.(ptr := seq(13, i => 0) + n.ptr[13..], size := 0, sectors := 0)
  }

  lemma EmptiedRefs(n: Inode, blocks: seq<Block>)
    ensures Plain(Emptied(n)) && forall s: nat :: s < SLOTS ==> Ref(Emptied(n), blocks, s) == 0
  {
  }

  /** ext2_inode_free_all_blocks (fs/ext2/inode.c:158-184) */
  method FreeAllBlocks(vol: Volume, n: Inode) returns (n': Inode)
    requires vol.Valid()
    modifies vol
    ensures vol.Valid() && vol.Books() == old(vol.Books())
    ensures n' == Emptied(n)
    ensures vol.View() == old(vol.View()).(used := old(vol.View()).used - RawWords(n, old(vol.blocks)))
  {
    hide Drifts, SuperDrift, Items, PointerWords, BlockWords, Word;
    ghost var v := vol.View();
    n' := n;
    PointerWordsStep(n, 0);
    var i := 0;
    while i < 12
      invariant 0 <= i <= 12 && vol.Valid() && vol.Books() == old(vol.Books())
      invariant vol.View() == v.(used := v.used - PointerWords(n, i))
      invariant n' == n.(ptr := n'.ptr)
      invariant forall t :: 0 <= t < 15 ==> n'.ptr[t] == if t < i then 0 else n.ptr[t]
    {
      PointerWordsStep(n, i);
      if n'.ptr[i] != 0 {
        vol.FreeBlock(n'.ptr[i]);
        n' := n'.(ptr := n'.ptr[i := 0]);
      }
      i := i + 1;
    }
    PointerWordsStep(n, 12);
    if n'.ptr[INDIRECT] != 0 {
      FreeIndirect(vol, n'.ptr[INDIRECT]);
      vol.FreeBlock(n'.ptr[INDIRECT]);
      n' := n'.(ptr := n'.ptr[INDIRECT := 0]);
    }
    n' := n'.(sectors := 0, size := 0);
    assert n'.ptr == Emptied(n).ptr;
  }

  /** fs/ext2/inode.c:169-177: the entries are copied out before any is freed. */
  method FreeIndirect(vol: Volume, ind: nat)
    requires vol.Valid() && 0 < ind
    modifies vol
    ensures vol.Valid() && vol.Books() == old(vol.Books())
    ensures var v := old(vol.View());
            vol.View() == if ind < |v.blocks| then v.(used := v.used - BlockWords(v.blocks[ind], 256)) else v
  {
    hide Drifts, SuperDrift, Items, BlockWords, Word;
    ghost var v := vol.View();
    var read, words := vol.ReadBlock(ind);
    if read {
      BlockWordsStep(words, 0);
      var p: nat := 0;
      while p < 256
        invariant p <= 256 && vol.Valid() && vol.Books() == old(vol.Books())
        invariant vol.View() == v.(used := v.used - BlockWords(words, p))
      {
        BlockWordsStep(words, p);
        if Word(words, p) != 0 {
          vol.FreeBlock(Word(words, p));
        }
        p := p + 1;
      }
    }
  }

  /** Freeing an inode clears exactly the bits of the blocks it owned, and keeps every other file. */
  lemma FreeAllIsDrop(v: Vol, meta: set<nat>, first: nat, i: nat)
    requires Sound(v, meta, first) && i < |v.inodes| && Plain(v.inodes[i])
    ensures var w := v.(inodes := v.inodes[i := Emptied(v.inodes[i])], used := v.used
            - RawWords(v.inodes[i], v.blocks));
            Sound(w, meta, first) && KeepsOthers(v, w, i)
              && RawWords(v.inodes[i], v.blocks) == References(v.inodes[i], v.blocks)
  {
    hide Ref;
    RawIsReferences(v.inodes[i], v.blocks);
    EmptiedRefs(v.inodes[i], v.blocks);
    DropStep(v, meta, first, i, Emptied(v.inodes[i]));
  }
}
