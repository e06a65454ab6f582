/**
 * Which block an inode's pointers refer to, and who owns each block.
 *
 * An inode refers to blocks through 12 direct pointers, the singly-indirect
 * block itself and the 256 words stored in that block: 269 reference slots.
 */
module Ext2Refs {
  import opened Bytes

  type Pointers = p: seq<nat> | |p| == 15 && forall k :: 0 <= k < 15 ==> p[k] < 0x1_0000_0000
    witness seq(15, i => 0)

  /** The fields of ext2_inode_t the write path reads (times and owners are left out). */
  datatype Inode = Inode(mode: nat, links: nat, size: nat, sectors: nat, ptr: Pointers)

  const NO_POINTERS: Pointers := [0, 0, 0, 0, 0, 0, 0, 0, 0, 0, 0, 0, 0, 0, 0]
  const ZERO_INODE := Inode(0, 0, 0, 0, NO_POINTERS)

  const SLOTS: nat := 269
  const INDIRECT: nat := 12
  const MAX_BLOCKS: nat := 268

  predicate IsDir(n: Inode) { n.mode / 0x1000 == 4 }
  predicate IsReg(n: Inode) { n.mode / 0x1000 == 8 }
  predicate IsLnk(n: Inode) { n.mode / 0x1000 == 10 }

  /** A fast symlink keeps its target text in i_block; nothing there is a block number. */
  predicate IsFast(n: Inode) { IsLnk(n) && n.sectors == 0 }

  /** The block named by reference slot s, 0 if none. */
  function Ref(n: Inode, blocks: seq<Block>, s: nat): nat
    requires s < SLOTS
  {
    if IsFast(n) then 0
    else if s <= INDIRECT then n.ptr[s]
    else if 0 < n.ptr[INDIRECT] < |blocks| then U32(blocks[n.ptr[INDIRECT]], 4 * (s - 13))
    else 0
  }

  /** The reference slot of logical block k (fs/ext2/inode.c:126-151). */
  function SlotOf(k: nat): nat { if k < INDIRECT then k else k + 1 }

  /** Logical block k of an inode; a hole reads as zeros. */
  function DataBlock(n: Inode, blocks: seq<Block>, k: nat): Block
    requires k < MAX_BLOCKS
  {
    var r := Ref(n, blocks, SlotOf(k));
    if 0 < r < |blocks| then blocks[r] else ZERO_BLOCK
  }

  /** How many logical blocks the size covers, as far as the iterator reaches. */
  function BlockCount(n: Inode): (c: nat)
    ensures c <= MAX_BLOCKS
  {
    var c := (n.size + 1023) / 1024;
    if c <= MAX_BLOCKS then c else MAX_BLOCKS
  }

  function Body(n: Inode, blocks: seq<Block>): (b: seq<Block>)
    ensures |b| == BlockCount(n)
  {
    seq(BlockCount(n), k requires 0 <= k < BlockCount(n) => DataBlock(n, blocks, k))
  }

  // ---- ownership ----

  /** owner maps every referenced block to the one (inode, slot) that refers to it. */
  type Owner = map<nat, (nat, nat)>

  ghost predicate Owns(inodes: seq<Inode>, blocks: seq<Block>, owner: Owner) {
    && (forall i: nat, s: nat :: i < |inodes| && s < SLOTS && Ref(inodes[i], blocks, s) != 0 ==>
          Ref(inodes[i], blocks, s) in owner && owner[Ref(inodes[i], blocks, s)] == (i, s))
    && (forall r :: r in owner ==> OwnerRefers(inodes, blocks, r, owner[r]))
  }

  ghost predicate OwnerRefers(inodes: seq<Inode>, blocks: seq<Block>, r: nat, at: (nat, nat)) {
    0 < r < |blocks| && at.0 < |inodes| && at.1 < SLOTS && Ref(inodes[at.0], blocks, at.1) == r
  }

  /** The theorem ownership stands for: no block is referenced twice. */
  lemma NoBlockReferencedTwice(inodes: seq<Inode>, blocks: seq<Block>, owner: Owner, i: nat, s: nat, j: nat, t: nat)
    requires Owns(inodes, blocks, owner)
    requires i < |inodes| && s < SLOTS && j < |inodes| && t < SLOTS
    requires Ref(inodes[i], blocks, s) == Ref(inodes[j], blocks, t) != 0
    ensures i == j && s == t
  {
    hide Ref;
  }

  /** Conversely, references that never collide have an owner map. */
  lemma OwnerExists(inodes: seq<Inode>, blocks: seq<Block>)
    requires forall i: nat, s: nat, j: nat, t: nat ::
               (i < |inodes| && s < SLOTS && j < |inodes| && t < SLOTS
                 && Ref(inodes[i], blocks, s) == Ref(inodes[j], blocks, t) != 0)
               ==> i == j && s == t
    requires forall i: nat, s: nat :: i < |inodes| && s < SLOTS ==> Ref(inodes[i], blocks, s) < |blocks|
    ensures exists owner :: Owns(inodes, blocks, owner)
  {
    hide Ref;
    var owner := map r: nat | r < |blocks| && Referenced(inodes, blocks, r) :: Referrer(inodes, blocks, r);
    forall i: nat, s: nat | i < |inodes| && s < SLOTS && Ref(inodes[i], blocks, s) != 0
      ensures Ref(inodes[i], blocks, s) in owner && owner[Ref(inodes[i], blocks, s)] == (i, s)
    {
      assert OwnerRefers(inodes, blocks, Ref(inodes[i], blocks, s), (i, s));
    }
    assert Owns(inodes, blocks, owner);
  }

  ghost predicate Referenced(inodes: seq<Inode>, blocks: seq<Block>, r: nat) {
    exists i: nat, s: nat :: OwnerRefers(inodes, blocks, r, (i, s))
  }

  ghost function Referrer(inodes: seq<Inode>, blocks: seq<Block>, r: nat): (at: (nat, nat))
    requires Referenced(inodes, blocks, r)
    ensures OwnerRefers(inodes, blocks, r, at)
  {
    var i: nat, s: nat :| OwnerRefers(inodes, blocks, r, (i, s));
    (i, s)
  }

  // ---- frames ----

  /** References depend on the inode and its indirect block only. */
  lemma RefFrame(n: Inode, blocks: seq<Block>, after: seq<Block>, s: nat)
    requires s < SLOTS && |blocks| == |after|
    requires 0 < n.ptr[INDIRECT] < |blocks| && !IsFast(n) ==> blocks[n.ptr[INDIRECT]] == after[n.ptr[INDIRECT]]
    ensures Ref(n, after, s) == Ref(n, blocks, s)
  {
  }

  /** An inode none of whose blocks changed has the same references and body. */
  lemma BodyFrame(n: Inode, blocks: seq<Block>, after: seq<Block>)
    requires |blocks| == |after|
    requires forall s: nat :: s < SLOTS && 0 < Ref(n, blocks, s) < |blocks| ==>
               after[Ref(n, blocks, s)] == blocks[Ref(n, blocks, s)]
    ensures forall s: nat :: s < SLOTS ==> Ref(n, after, s) == Ref(n, blocks, s)
    ensures Body(n, after) == Body(n, blocks)
  {
    forall s: nat | s < SLOTS ensures Ref(n, after, s) == Ref(n, blocks, s) {
      if !IsFast(n) { assert Ref(n, blocks, INDIRECT) == n.ptr[INDIRECT]; }
      RefFrame(n, blocks, after, s);
    }
    hide Ref;
    forall k | 0 <= k < BlockCount(n) ensures DataBlock(n, after, k) == DataBlock(n, blocks, k) {
    }
  }

  /** Inodes other than i, with their references and bodies, are the same. */
  ghost predicate OthersKept(inodes: seq<Inode>, blocks: seq<Block>, inodes': seq<Inode>, blocks': seq<Block>, i: nat) {
    && |inodes'| == |inodes| && |blocks'| == |blocks|
    && forall j: nat :: j < |inodes| && j != i ==>
         inodes'[j] == inodes[j] && Body(inodes[j], blocks') == Body(inodes[j], blocks)
  }

  /** Overwriting a block that inode i owns as data, or that nobody owns, changes no reference and no other inode. */
  lemma WriteData(inodes: seq<Inode>, blocks: seq<Block>, owner: Owner, b: nat, d: Block, i: nat)
    requires Owns(inodes, blocks, owner) && b < |blocks|
    requires b in owner ==> owner[b].0 == i && owner[b].1 != INDIRECT
    ensures Owns(inodes, blocks[b := d], owner)
    ensures OthersKept(inodes, blocks, inodes, blocks[b := d], i)
    ensures forall j: nat, s: nat :: j < |inodes| && s < SLOTS ==>
              Ref(inodes[j], blocks[b := d], s) == Ref(inodes[j], blocks, s)
  {
    var after := blocks[b := d];
    forall j: nat, s: nat | j < |inodes| && s < SLOTS ensures Ref(inodes[j], after, s) == Ref(inodes[j], blocks, s) {
      WriteDataRef(inodes, blocks, owner, b, d, j, s);
    }
    hide Ref, IsFast, Body;
    forall j: nat | j < |inodes| && j != i ensures Body(inodes[j], after) == Body(inodes[j], blocks) {
      BodyFrame(inodes[j], blocks, after);
    }
    forall r | r in owner ensures OwnerRefers(inodes, after, r, owner[r]) {
      assert OwnerRefers(inodes, blocks, r, owner[r]);
    }
  }

  lemma WriteDataRef(inodes: seq<Inode>, blocks: seq<Block>, owner: Owner, b: nat, d: Block, j: nat, s: nat)
    requires Owns(inodes, blocks, owner) && b < |blocks| && j < |inodes| && s < SLOTS
    requires b in owner ==> owner[b].1 != INDIRECT
    ensures Ref(inodes[j], blocks[b := d], s) == Ref(inodes[j], blocks, s)
  {
    var n := inodes[j];
    if !IsFast(n) {
      assert Ref(n, blocks, INDIRECT) == n.ptr[INDIRECT];
    }
    RefFrame(n, blocks, blocks[b := d], s);
  }

  // ---- adding and dropping references ----

  /** i_block is not read as text: every word up to the indirect pointer is a reference. */
  predicate Plain(n: Inode) {
    IsFast(n) ==> forall k :: 0 <= k <= INDIRECT ==> n.ptr[k] == 0
  }

  const SECTORS_PER_BLOCK: nat := 2

  /** n with word k of i_block set and one more block accounted. */
  function WithPointer(n: Inode, k: nat, b: nat): Inode
    requires k < 15 && b < 0x1_0000_0000
  {
    n.(ptr := n.ptr[k := b], sectors := n.sectors + SECTORS_PER_BLOCK)
  }

  /** One slot of inode i gains a reference to an unowned block; no other reference changes. */
  lemma OwnsAdd(inodes: seq<Inode>, blocks: seq<Block>, owner: Owner,
                inodes': seq<Inode>, blocks': seq<Block>, i: nat, t: nat, blk: nat)
    requires Owns(inodes, blocks, owner) && |inodes'| == |inodes| && |blocks'| == |blocks|
    requires i < |inodes| && t < SLOTS && 0 < blk < |blocks| && blk !in owner
    requires Ref(inodes[i], blocks, t) == 0
    requires forall j: nat, s: nat :: j < |inodes| && s < SLOTS ==>
               Ref(inodes'[j], blocks', s) == if j == i && s == t then blk else Ref(inodes[j], blocks, s)
    ensures Owns(inodes', blocks', owner[blk := (i, t)])
  {
    hide Ref;
    var owner' := owner[blk := (i, t)];
    forall r | r in owner' ensures OwnerRefers(inodes', blocks', r, owner'[r]) {
      if r != blk {
        assert OwnerRefers(inodes, blocks, r, owner[r]);
      }
    }
  }

  /** Only inode i changed, and only by gaining slot t. */
  ghost predicate GainsRef(n: Inode, blocks: seq<Block>, n': Inode, blocks': seq<Block>, t: nat, blk: nat)
    requires t < SLOTS
  {
    forall s: nat :: s < SLOTS ==> Ref(n', blocks', s) == if s == t then blk else Ref(n, blocks, s)
  }

  lemma GainDirect(n: Inode, blocks: seq<Block>, k: nat, blk: nat)
    requires Plain(n) && k < INDIRECT && blk < 0x1_0000_0000
    ensures GainsRef(n, blocks, WithPointer(n, k, blk), blocks, k, blk)
  {
  }

  lemma ZeroWords(at: nat)
    requires at + 4 <= 1024
    ensures U32(ZERO_BLOCK, at) == 0
  {
  }

  /** A fresh indirect block brings no reference but itself, because allocation zero-fills it. */
  lemma GainIndirect(n: Inode, blocks: seq<Block>, blk: nat)
    requires Plain(n) && n.ptr[INDIRECT] == 0 && 0 < blk < |blocks| && blk < 0x1_0000_0000
    requires blocks[blk] == ZERO_BLOCK
    ensures GainsRef(n, blocks, WithPointer(n, INDIRECT, blk), blocks, INDIRECT, blk)
  {
    hide U32;
    var n' := WithPointer(n, INDIRECT, blk);
    forall s: nat | s < SLOTS ensures Ref(n', blocks, s) == if s == INDIRECT then blk else Ref(n, blocks, s) {
      if s > INDIRECT { ZeroWords(4 * (s - 13)); }
    }
  }

  /** Storing a word in the indirect block. */
  lemma GainEntry(n: Inode, blocks: seq<Block>, p: nat, blk: nat)
    requires !IsFast(n) && 0 < n.ptr[INDIRECT] < |blocks| && p < 256 && blk < 0x1_0000_0000
    ensures var ind := n.ptr[INDIRECT];
            var blocks' := blocks[ind := Put(blocks[ind], 4 * p, Enc32(blk))];
            GainsRef(n, blocks, n.(sectors := n.sectors + SECTORS_PER_BLOCK), blocks', 13 + p, blk)
  {
    hide U32, Put, Enc32;
    var ind := n.ptr[INDIRECT];
    var n' := n.(sectors := n.sectors + SECTORS_PER_BLOCK);
    var blocks' := blocks[ind := Put(blocks[ind], 4 * p, Enc32(blk))];
    forall s: nat | s < SLOTS ensures Ref(n', blocks', s) == if s == 13 + p then blk else Ref(n, blocks, s) {
      if s > INDIRECT { PutU32(blocks[ind], 4 * p, blk, 4 * (s - 13)); }
    }
  }

  /** Inode i drops every reference. */
  ghost function Released(owner: Owner, i: nat): Owner {
    map r | r in owner && owner[r].0 != i :: owner[r]
  }

  lemma OwnsDrop(inodes: seq<Inode>, blocks: seq<Block>, owner: Owner, i: nat, n': Inode)
    requires Owns(inodes, blocks, owner) && i < |inodes|
    requires forall s: nat :: s < SLOTS ==> Ref(n', blocks, s) == 0
    ensures Owns(inodes[i := n'], blocks, Released(owner, i))
    ensures OthersKept(inodes, blocks, inodes[i := n'], blocks, i)
  {
    hide Ref, Body;
    var inodes', owner' := inodes[i := n'], Released(owner, i);
    forall r | r in owner' ensures OwnerRefers(inodes', blocks, r, owner'[r]) {
      assert OwnerRefers(inodes, blocks, r, owner[r]);
    }
  }

  /** Replacing inode i by one with the same references (a size or link-count update). */
  lemma OwnsSame(inodes: seq<Inode>, blocks: seq<Block>, owner: Owner, i: nat, n': Inode)
    requires Owns(inodes, blocks, owner) && i < |inodes|
    requires forall s: nat :: s < SLOTS ==> Ref(n', blocks, s) == Ref(inodes[i], blocks, s)
    ensures Owns(inodes[i := n'], blocks, owner)
    ensures OthersKept(inodes, blocks, inodes[i := n'], blocks, i)
  {
    hide Ref, Body;
    forall r | r in owner ensures OwnerRefers(inodes[i := n'], blocks, r, owner[r]) {
      assert OwnerRefers(inodes, blocks, r, owner[r]);
    }
  }
}
