/**
 * Block ownership of a whole volume, and how each disk step of the driver keeps it.
 *
 * A volume is sound when no block is referenced twice, every referenced block has
 * its bitmap bit set, and no reference reaches a metadata block.
 */
module Ext2Sound {
  import opened Bytes
  import opened Ext2Refs
  import opened Ext2Volume

  ghost predicate SoundBy(v: Vol, meta: set<nat>, first: nat, owner: Owner) {
    && Owns(v.inodes, v.blocks, owner)
    && (forall r :: r in owner ==> r in v.used && r !in meta && r >= first)
    && (forall m :: m in meta ==> m < first || m in v.used)
    && |v.blocks| < 0x1_0000_0000 && 0 < first
  }

  ghost predicate Sound(v: Vol, meta: set<nat>, first: nat) {
    exists owner :: SoundBy(v, meta, first, owner)
  }

  /** The blocks inode n refers to. */
  ghost function References(n: Inode, blocks: seq<Block>): iset<nat> {
    iset r: nat | RefersTo(n, blocks, r)
  }

  ghost predicate RefersTo(n: Inode, blocks: seq<Block>, r: nat) {
    r != 0 && exists s: nat :: s < SLOTS && Ref(n, blocks, s) == r
  }

  /** b is allocated but nothing refers to it. */
  ghost predicate Loose(v: Vol, meta: set<nat>, b: nat) {
    && b in v.used && b !in meta && 0 < b < |v.blocks|
    && forall i: nat :: i < |v.inodes| ==> !RefersTo(v.inodes[i], v.blocks, b)
  }

  /** Every inode but i keeps its table entry, its references and its contents. */
  ghost predicate KeepsOthers(v: Vol, w: Vol, i: nat) {
    && |w.inodes| == |v.inodes| && |w.blocks| == |v.blocks|
    && forall j: nat :: j < |v.inodes| && j != i ==> KeepsInode(v, w, j)
  }

  ghost predicate KeepsInode(v: Vol, w: Vol, j: nat)
    requires j < |v.inodes| == |w.inodes|
  {
    && w.inodes[j] == v.inodes[j] && Body(v.inodes[j], w.blocks) == Body(v.inodes[j], v.blocks)
    && SameRefs(v.inodes[j], v.blocks, w.blocks)
  }

  ghost predicate SameRefs(n: Inode, blocks: seq<Block>, after: seq<Block>) {
    forall s: nat :: s < SLOTS ==> Ref(n, after, s) == Ref(n, blocks, s)
  }

  lemma KeepsTransitive(u: Vol, v: Vol, w: Vol, i: nat)
    requires KeepsOthers(u, v, i) && KeepsOthers(v, w, i)
    ensures KeepsOthers(u, w, i)
  {
    hide Body;
    forall j: nat | j < |u.inodes| && j != i ensures KeepsInode(u, w, j) {
      assert KeepsInode(u, v, j) && KeepsInode(v, w, j);
    }
  }

  /** What soundness says, without the owner map. */
  lemma SoundMeans(v: Vol, meta: set<nat>, first: nat, i: nat, s: nat)
    requires Sound(v, meta, first) && i < |v.inodes| && s < SLOTS && Ref(v.inodes[i], v.blocks, s) != 0
    ensures var r := Ref(v.inodes[i], v.blocks, s);
            && first <= r < |v.blocks| && r in v.used && r !in meta
            && forall j: nat, t: nat :: j < |v.inodes| && t < SLOTS && Ref(v.inodes[j], v.blocks, t) == r ==>
                 j == i && t == s
  {
    hide Ref;
    var owner :| SoundBy(v, meta, first, owner);
    var r := Ref(v.inodes[i], v.blocks, s);
    assert OwnerRefers(v.inodes, v.blocks, r, owner[r]);
  }

  lemma LooseUnowned(v: Vol, meta: set<nat>, first: nat, owner: Owner, b: nat)
    requires SoundBy(v, meta, first, owner)
    ensures Loose(v, meta, b) ==> b !in owner
  {
    hide Ref;
    if b in owner {
      assert OwnerRefers(v.inodes, v.blocks, b, owner[b]);
      assert RefersTo(v.inodes[owner[b].0], v.blocks, b);
    }
  }

  lemma UnownedLoose(v: Vol, meta: set<nat>, first: nat, owner: Owner, b: nat)
    requires SoundBy(v, meta, first, owner) && b !in owner && b in v.used && b !in meta && 0 < b < |v.blocks|
    ensures Loose(v, meta, b)
  {
    hide Ref;
  }

  // ---- steps ----

  /** Allocating a block: it is loose, zero-filled, and nothing else moves. */
  lemma AllocStep(v: Vol, meta: set<nat>, first: nat, b: nat, any: nat)
    requires Sound(v, meta, first) && b !in v.used && first <= b < |v.blocks|
    ensures var w := v.(used := v.used + iset{b}, blocks := v.blocks[b := ZERO_BLOCK]);
            Sound(w, meta, first) && Loose(w, meta, b) && KeepsOthers(v, w, any)
            && (forall j: nat, s: nat :: j < |v.inodes| && s < SLOTS ==>
                 Ref(v.inodes[j], w.blocks, s) == Ref(v.inodes[j], v.blocks, s))
            && forall j: nat :: j < |v.inodes| ==> Body(v.inodes[j], w.blocks) == Body(v.inodes[j], v.blocks)
  {
    hide Ref, Body;
    var w := v.(used := v.used + iset{b}, blocks := v.blocks[b := ZERO_BLOCK]);
    var owner :| SoundBy(v, meta, first, owner);
    assert b !in owner;
    WriteData(v.inodes, v.blocks, owner, b, ZERO_BLOCK, |v.inodes|);
    assert SoundBy(w, meta, first, owner);
    UnownedLoose(w, meta, first, owner, b);
    forall j: nat | j < |v.inodes| ensures Body(v.inodes[j], w.blocks) == Body(v.inodes[j], v.blocks) {
      assert j != |v.inodes|;
    }
  }

  /** Writing a loose block. */
  lemma LooseStep(v: Vol, meta: set<nat>, first: nat, b: nat, d: Block)
    requires Sound(v, meta, first) && Loose(v, meta, b)
    ensures var w := v.(blocks := v.blocks[b := d]);
            Sound(w, meta, first) && Loose(w, meta, b)
            && (forall j: nat, s: nat :: j < |v.inodes| && s < SLOTS ==>
                 Ref(v.inodes[j], w.blocks, s) == Ref(v.inodes[j], v.blocks, s))
            && forall j: nat :: j < |v.inodes| ==> Body(v.inodes[j], w.blocks) == Body(v.inodes[j], v.blocks)
  {
    hide Ref, Body;
    var w := v.(blocks := v.blocks[b := d]);
    var owner :| SoundBy(v, meta, first, owner);
    LooseUnowned(v, meta, first, owner, b);
    WriteData(v.inodes, v.blocks, owner, b, d, |v.inodes|);
    assert SoundBy(w, meta, first, owner);
    UnownedLoose(w, meta, first, owner, b);
    forall j: nat | j < |v.inodes| ensures Body(v.inodes[j], w.blocks) == Body(v.inodes[j], v.blocks) {
      assert j != |v.inodes|;
    }
  }

  /** Overwriting logical block k of inode i. */
  lemma DataStep(v: Vol, meta: set<nat>, first: nat, i: nat, k: nat, d: Block)
    requires Sound(v, meta, first) && i < |v.inodes| && k < MAX_BLOCKS && Ref(v.inodes[i], v.blocks, SlotOf(k)) != 0
    ensures var b := Ref(v.inodes[i], v.blocks, SlotOf(k));
            first <= b < |v.blocks| && b !in meta
            && var w := v.(blocks := v.blocks[b := d]);
               Sound(w, meta, first) && KeepsOthers(v, w, i)
               && (forall s: nat :: s < SLOTS ==> Ref(v.inodes[i], w.blocks, s) == Ref(v.inodes[i], v.blocks, s))
               && (k < BlockCount(v.inodes[i]) ==> Body(v.inodes[i], w.blocks) == Body(v.inodes[i], v.blocks)[k := d])
  {
    hide Ref;
    SoundMeans(v, meta, first, i, SlotOf(k));
    var b := Ref(v.inodes[i], v.blocks, SlotOf(k));
    var w := v.(blocks := v.blocks[b := d]);
    var owner :| SoundBy(v, meta, first, owner);
    WriteData(v.inodes, v.blocks, owner, b, d, i);
    assert SoundBy(w, meta, first, owner);
    DataStepBody(v, meta, first, i, k, d);
  }

  lemma DataStepBody(v: Vol, meta: set<nat>, first: nat, i: nat, k: nat, d: Block)
    requires Sound(v, meta, first) && i < |v.inodes| && k < MAX_BLOCKS
    requires 0 < Ref(v.inodes[i], v.blocks, SlotOf(k)) < |v.blocks|
    requires var after := v.blocks[Ref(v.inodes[i], v.blocks, SlotOf(k)) := d];
             forall s: nat :: s < SLOTS ==> Ref(v.inodes[i], after, s) == Ref(v.inodes[i], v.blocks, s)
    ensures var after := v.blocks[Ref(v.inodes[i], v.blocks, SlotOf(k)) := d];
            k < BlockCount(v.inodes[i]) ==> Body(v.inodes[i], after) == Body(v.inodes[i], v.blocks)[k := d]
  {
    hide Ref;
    var n, b := v.inodes[i], Ref(v.inodes[i], v.blocks, SlotOf(k));
    var after := v.blocks[b := d];
    if k < BlockCount(n) {
      forall j | 0 <= j < BlockCount(n)
          ensures DataBlock(n, after, j) == if j == k then d else DataBlock(n, v.blocks, j) {
        if j != k && Ref(n, v.blocks, SlotOf(j)) == b {
          SoundMeans(v, meta, first, i, SlotOf(j));
        }
      }
    }
  }

  /** Inode i gains one reference, to a loose block; only its indirect block may be rewritten. */
  lemma GainStep(v: Vol, meta: set<nat>, first: nat, i: nat, n': Inode, blocks': seq<Block>, t: nat, b: nat)
    requires Sound(v, meta, first) && i < |v.inodes| && t < SLOTS && Loose(v, meta, b) && b >= first
    requires Ref(v.inodes[i], v.blocks, t) == 0 && |blocks'| == |v.blocks|
    requires GainsRef(v.inodes[i], v.blocks, n', blocks', t, b)
    requires forall c: nat :: c < |v.blocks| && blocks'[c] != v.blocks[c] ==> RefersTo(v.inodes[i], v.blocks, c)
    ensures var w := v.(inodes := v.inodes[i := n'], blocks := blocks');
            Sound(w, meta, first) && KeepsOthers(v, w, i)
  {
    hide Ref, Body;
    var w := v.(inodes := v.inodes[i := n'], blocks := blocks');
    var owner :| SoundBy(v, meta, first, owner);
    LooseUnowned(v, meta, first, owner, b);
    forall j: nat | j < |v.inodes| && j != i
      ensures forall s: nat :: s < SLOTS ==> Ref(v.inodes[j], blocks', s) == Ref(v.inodes[j], v.blocks, s)
      ensures KeepsInode(v, w, j)
    {
      GainOther(v, meta, first, owner, i, blocks', j);
    }
    OwnsAdd(v.inodes, v.blocks, owner, w.inodes, blocks', i, t, b);
    assert SoundBy(w, meta, first, owner[b := (i, t)]);
  }

  lemma GainOther(v: Vol, meta: set<nat>, first: nat, owner: Owner, i: nat, blocks': seq<Block>, j: nat)
    requires SoundBy(v, meta, first, owner) && i < |v.inodes| && j < |v.inodes| && j != i && |blocks'| == |v.blocks|
    requires forall c: nat :: c < |v.blocks| && blocks'[c] != v.blocks[c] ==> RefersTo(v.inodes[i], v.blocks, c)
    ensures forall s: nat :: s < SLOTS ==> Ref(v.inodes[j], blocks', s) == Ref(v.inodes[j], v.blocks, s)
    ensures Body(v.inodes[j], blocks') == Body(v.inodes[j], v.blocks)
  {
    hide Ref, Body;
    forall s: nat | s < SLOTS && 0 < Ref(v.inodes[j], v.blocks, s) < |v.blocks|
      ensures blocks'[Ref(v.inodes[j], v.blocks, s)] == v.blocks[Ref(v.inodes[j], v.blocks, s)]
    {
      assert owner[Ref(v.inodes[j], v.blocks, s)] == (j, s);
    }
    BodyFrame(v.inodes[j], v.blocks, blocks');
  }

  /** Inode i drops all references and the blocks it referred to become free. */
  lemma DropStep(v: Vol, meta: set<nat>, first: nat, i: nat, n': Inode)
    requires Sound(v, meta, first) && i < |v.inodes|
    requires forall s: nat :: s < SLOTS ==> Ref(n', v.blocks, s) == 0
    ensures var w := v.(inodes := v.inodes[i := n'], used := v.used - References(v.inodes[i], v.blocks));
            Sound(w, meta, first) && KeepsOthers(v, w, i)
  {
    hide Ref, Body;
    var w := v.(inodes := v.inodes[i := n'], used := v.used - References(v.inodes[i], v.blocks));
    var owner :| SoundBy(v, meta, first, owner);
    OwnsDrop(v.inodes, v.blocks, owner, i, n');
    var owner' := Released(owner, i);
    assert SoundBy(w, meta, first, owner');
  }

  /** Rewriting an inode without moving a reference. */
  lemma SameStep(v: Vol, meta: set<nat>, first: nat, i: nat, n': Inode)
    requires Sound(v, meta, first) && i < |v.inodes|
    requires forall s: nat :: s < SLOTS ==> Ref(n', v.blocks, s) == Ref(v.inodes[i], v.blocks, s)
    ensures var w := v.(inodes := v.inodes[i := n']); Sound(w, meta, first) && KeepsOthers(v, w, i)
  {
    hide Ref, Body;
    var owner :| SoundBy(v, meta, first, owner);
    OwnsSame(v.inodes, v.blocks, owner, i, n');
    assert SoundBy(v.(inodes := v.inodes[i := n']), meta, first, owner);
  }
}
