/**
 * A mounted EXT2 volume: bitmaps, group descriptors (in memory and on disk),
 * superblock totals, inode table and block contents, with the allocators of
 * fs/ext2/alloc.c and the raw inode and block accessors.
 */
module Ext2Volume {
  import opened Arith
  import opened Bytes
  import opened Ext2Bitmap
  import opened Ext2Refs
  import opened Ext2Room

  datatype Geometry = Geometry(first: nat, perGroup: nat, groups: nat, total: nat, inodesPerGroup: nat, inodes: nat)
  {
    /** What ext2_super_read accepts for 1 KiB blocks, with every inode inside some group. */
    ghost predicate Ok() {
      && 0 < first < total < 0x1_0000_0000 && 0 < inodes < 0xFFFF_FFFF
      && 0 < perGroup <= 8192 && 0 < inodesPerGroup <= 8192 && inodes <= groups * inodesPerGroup
    }
  }

  const DESC_SIZE: nat := 32
  const DESCS_PER_BLOCK: nat := 32

  /** The counters of a block group descriptor (16-bit on disk). */
  datatype Desc = Desc(freeBlocks: nat, freeInodes: nat, usedDirs: nat)

  /** The part of a volume the layers above reason about. */
  datatype Vol = Vol(used: iset<nat>, iused: iset<nat>, inodes: seq<Inode>, blocks: seq<Block>)

  /** Counter drift: what every counter differs from the bitmap by, modulo its width. */
  datatype Ledger = Ledger(blocks: seq<int>, inodes: seq<int>, superBlocks: int, superInodes: int)

  // ---- bit addressing ----

  /** Item x (block or inode, counted from its first) is bit x % per of group x / per. */
  predicate BitUsed(maps: seq<Bitmap>, per: nat, x: nat)
    requires per > 0
  {
    BitAt(maps, x / per, x % per)
  }

  predicate BitAt(maps: seq<Bitmap>, g: nat, i: nat) {
    g < |maps| && i < 8 * |maps[g]| && Bit(maps[g], i)
  }

  function ItemNo(g: nat, per: nat, i: nat): nat { g * per + i }

  ghost predicate MapsOk(maps: seq<Bitmap>, groups: nat, per: nat) {
    |maps| == groups && forall g :: 0 <= g < groups ==> per <= 8 * |maps[g]|
  }

  lemma SetBitLen(m: Bitmap, i: nat)
    requires i < 8 * |m|
    ensures |SetBit(m, i)| == |m| && |ClearBit(m, i)| == |m|
  {
  }

  lemma OneBitAt(maps: seq<Bitmap>, g: nat, i: nat, q: nat, r: nat)
    requires g < |maps| && i < 8 * |maps[g]|
    ensures BitAt(maps[g := SetBit(maps[g], i)], q, r) == ((q == g && r == i) || BitAt(maps, q, r))
    ensures BitAt(maps[g := ClearBit(maps[g], i)], q, r) == (!(q == g && r == i) && BitAt(maps, q, r))
  {
    hide Bit, SetBit, ClearBit;
    SetBitLen(maps[g], i);
    if q == g && r < 8 * |maps[g]| {
      BitUpdate(maps[g], i, r);
    }
  }

  /** Setting (clearing) one bit adds (removes) one item. */
  lemma OneBit(maps: seq<Bitmap>, groups: nat, per: nat, g: nat, i: nat, x: nat)
    requires MapsOk(maps, groups, per) && g < groups && i < per
    ensures BitUsed(maps[g := SetBit(maps[g], i)], per, x) == (x == g * per + i || BitUsed(maps, per, x))
    ensures BitUsed(maps[g := ClearBit(maps[g], i)], per, x) == (x != g * per + i && BitUsed(maps, per, x))
  {
    hide BitAt, SetBit, ClearBit;
    Addressing(per, x, g, i);
    OneBitAt(maps, g, i, x / per, x % per);
  }

  /** Clear bits over all groups. */
  function TotalClear(maps: seq<Bitmap>, per: nat): nat
    requires MapsOk(maps, |maps|, per)
  {
    if maps == [] then 0 else ClearCount(maps[0], per) + TotalClear(maps[1..], per)
  }

  lemma {:induction false} TotalClearUpdate(maps: seq<Bitmap>, per: nat, g: nat, m: Bitmap)
    requires MapsOk(maps, |maps|, per)
    requires g < |maps| && per <= 8 * |m|
    ensures MapsOk(maps[g := m], |maps|, per)
    ensures TotalClear(maps[g := m], per) == TotalClear(maps, per) - ClearCount(maps[g], per) + ClearCount(m, per)
  {
    hide ClearCount;
    if g == 0 {
      assert maps[0 := m][1..] == maps[1..];
    } else {
      TotalClearUpdate(maps[1..], per, g - 1, m);
      assert maps[g := m][1..] == maps[1..][g - 1 := m];
    }
  }

  /** Group g, if it admits to free items, has no free item numbered below `limit`. */
  ghost predicate FullBelow(maps: seq<Bitmap>, per: nat, free: seq<nat>, limit: int, g: nat)
    requires g < |maps| == |free| && per <= 8 * |maps[g]|
  {
    free[g] != 0 ==> forall i :: 0 <= i < per && g * per + i < limit ==> Bit(maps[g], i)
  }

  ghost predicate NoneBelow(maps: seq<Bitmap>, per: nat, free: seq<nat>, limit: int)
    requires MapsOk(maps, |free|, per)
  {
    forall g :: 0 <= g < |maps| ==> FullBelow(maps, per, free, limit, g)
  }

  lemma FoundIsLowest(maps: seq<Bitmap>, per: nat, free: seq<nat>, limit: int, g: nat, i: nat)
    requires MapsOk(maps, |free|, per) && g < |maps| && i < per && g * per + i < limit
    requires forall h :: 0 <= h < g ==> FullBelow(maps, per, free, limit, h)
    requires forall k :: 0 <= k < i ==> Bit(maps[g], k)
    ensures NoneBelow(maps, per, free, g * per + i)
  {
    hide Bit;
    var at := g * per + i;
    forall h | 0 <= h < |maps| ensures FullBelow(maps, per, free, at, h) {
      if h < g {
        assert FullBelow(maps, per, free, limit, h);
      } else if h > g {
        LaterGroup(g, h, per);
      }
    }
  }

  /**
   * The double loop of both allocators (fs/ext2/alloc.c:15-28, 76-88); item g * per + i is block
   * first + it, or inode it + 1.
   */
  method ScanBitmaps(maps: seq<Bitmap>, per: nat, free: seq<nat>, limit: int) returns (found: bool, g: nat, i: nat)
    requires MapsOk(maps, |free|, per)
    ensures found ==> g < |maps| && i < per && ItemNo(g, per, i) < limit && free[g] != 0 && !Bit(maps[g], i)
    ensures found ==> NoneBelow(maps, per, free, ItemNo(g, per, i))
    ensures !found ==> NoneBelow(maps, per, free, limit)
  {
    hide Bit;
    g, i := 0, 0;
    while g < |maps|
      invariant g <= |maps|
      invariant forall h :: 0 <= h < g ==> FullBelow(maps, per, free, limit, h)
    {
      if free[g] != 0 {
        i := 0;
        while i < per
          invariant i <= per
          invariant forall k :: 0 <= k < i ==> Bit(maps[g], k)
        {
          if g * per + i >= limit { break; }
          if !Bit(maps[g], i) {
            FoundIsLowest(maps, per, free, limit, g, i);
            return true, g, i;
          }
          i := i + 1;
        }
        assert FullBelow(maps, per, free, limit, g);
      }
      g := g + 1;
    }
    return false, 0, 0;
  }

  function FreeBlocksOf(d: seq<Desc>): seq<nat> { seq(|d|, g requires 0 <= g < |d| => d[g].freeBlocks) }
  function FreeInodesOf(d: seq<Desc>): seq<nat> { seq(|d|, g requires 0 <= g < |d| => d[g].freeInodes) }

  /** Unsigned 16-bit and 32-bit arithmetic. */
  function Wrap16(x: int): (r: nat)
    ensures r < 0x1_0000
    ensures 0 <= x < 0x1_0000 ==> r == x
  {
    x % 0x1_0000
  }

  function Wrap32(x: int): nat { x % 0x1_0000_0000 }

  /** (superblock total - clear bits) modulo 2^32. */
  ghost function SuperDrift(total: int, maps: seq<Bitmap>, per: nat): int
    requires MapsOk(maps, |maps|, per)
  {
    (total - TotalClear(maps, per)) % 0x1_0000_0000
  }

  ghost predicate DescsOk(d: seq<Desc>) {
    forall g :: 0 <= g < |d| ==> d[g].freeBlocks < 0x1_0000 && d[g].freeInodes < 0x1_0000
  }

  /** (counter - clear bits) modulo 2^16, group by group. */
  ghost function Drifts(free: seq<nat>, maps: seq<Bitmap>, per: nat): seq<int>
    requires MapsOk(maps, |free|, per)
  {
    seq(|free|, g requires 0 <= g < |free| => (free[g] - ClearCount(maps[g], per)) % 0x1_0000)
  }

  /** Moving a counter and its bitmap together keeps every drift. */
  lemma DriftKept(free: seq<nat>, maps: seq<Bitmap>, per: nat, g: nat, f: nat, m: Bitmap, d: int)
    requires MapsOk(maps, |free|, per)
    requires g < |maps| && per <= 8 * |m|
    requires f == (free[g] + d) % 0x1_0000 && ClearCount(m, per) == ClearCount(maps[g], per) + d
    ensures Drifts(free[g := f], maps[g := m], per) == Drifts(free, maps, per)
  {
    hide ClearCount;
    ModShift(free[g], ClearCount(maps[g], per), d, 0x1_0000);
  }

  /** The numbers marked in use, numbering items from `first`. */
  ghost function Items(maps: seq<Bitmap>, per: nat, first: nat): iset<nat>
    requires per > 0
  {
    iset b: nat | Marked(maps, per, first, b)
  }

  predicate Marked(maps: seq<Bitmap>, per: nat, first: nat, b: nat)
    requires per > 0
  {
    b >= first && BitUsed(maps, per, b - first)
  }

  /** Everything taking one bit does: the item set, the group drift, the superblock drift. */
  lemma TakeBit(maps: seq<Bitmap>, free: seq<nat>, per: nat, first: nat, g: nat, i: nat, total: int)
    requires MapsOk(maps, |free|, per) && g < |maps| && i < per && !Bit(maps[g], i) && 0 < free[g] < 0x1_0000
    ensures var after, x := maps[g := SetBit(maps[g], i)], first + ItemNo(g, per, i);
            && MapsOk(after, |free|, per) && x !in Items(maps, per, first)
            && Items(after, per, first) == Items(maps, per, first) + iset{x}
            && Drifts(free[g := free[g] - 1], after, per) == Drifts(free, maps, per)
            && SuperDrift(Wrap32(total - 1), after, per) == SuperDrift(total, maps, per)
  {
    hide Bit, SetBit, ClearCount, TotalClear, Drifts, BitUsed;
    var after, x := maps[g := SetBit(maps[g], i)], first + g * per + i;
    SetBitLen(maps[g], i);
    BitOf(maps, per, g, i);
    forall b: nat ensures Marked(after, per, first, b) == (b == x || Marked(maps, per, first, b)) {
      if b >= first { OneBit(maps, |free|, per, g, i, b - first); }
    }
    ClearCountUpdate(maps[g], i, per);
    DriftKept(free, maps, per, g, free[g] - 1, SetBit(maps[g], i), -1);
    TotalClearUpdate(maps, per, g, SetBit(maps[g], i));
    ModShift(total, TotalClear(maps, per), -1, 0x1_0000_0000);
  }

  /** Everything giving one bit back does. */
  lemma GiveBit(maps: seq<Bitmap>, free: seq<nat>, per: nat, first: nat, g: nat, i: nat, total: int)
    requires MapsOk(maps, |free|, per) && g < |maps| && i < per && Bit(maps[g], i)
    ensures var after, x := maps[g := ClearBit(maps[g], i)], first + ItemNo(g, per, i);
            && MapsOk(after, |free|, per)
            && Items(after, per, first) == Items(maps, per, first) - iset{x}
            && Drifts(free[g := Wrap16(free[g] + 1)], after, per) == Drifts(free, maps, per)
            && SuperDrift(Wrap32(total + 1), after, per) == SuperDrift(total, maps, per)
  {
    hide Bit, ClearBit, ClearCount, TotalClear, Drifts, BitUsed;
    var after, x := maps[g := ClearBit(maps[g], i)], first + g * per + i;
    SetBitLen(maps[g], i);
    forall b: nat ensures Marked(after, per, first, b) == (b != x && Marked(maps, per, first, b)) {
      if b >= first { OneBit(maps, |free|, per, g, i, b - first); }
    }
    ClearCountUpdate(maps[g], i, per);
    DriftKept(free, maps, per, g, Wrap16(free[g] + 1), ClearBit(maps[g], i), 1);
    TotalClearUpdate(maps, per, g, ClearBit(maps[g], i));
    ModShift(total, TotalClear(maps, per), 1, 0x1_0000_0000);
  }

  lemma BitOf(maps: seq<Bitmap>, per: nat, g: nat, i: nat)
    requires g < |maps| && per <= 8 * |maps[g]| && i < per
    ensures BitUsed(maps, per, g * per + i) == Bit(maps[g], i)
  {
    hide Bit;
    Addressing(per, g * per + i, g, i);
  }

  // ---- what is on offer ----

  /** How many blocks ext2_alloc_block can still hand out, with this set in use. */
  ghost function BlocksLeft(geo: Geometry, books: Ledger, used: iset<nat>): nat {
    if geo.total < geo.first then 0
    else Left(used, books.blocks, geo.first, geo.perGroup, geo.total - geo.first, 0)
  }

  /** How many inode numbers ext2_alloc_inode can still hand out. */
  ghost function InodesLeft(geo: Geometry, books: Ledger, iused: iset<nat>): nat {
    Left(iused, books.inodes, 1, geo.inodesPerGroup, geo.inodes, 0)
  }

  lemma {:induction false} ClearSame(maps: seq<Bitmap>, per: nat, first: nat, g: nat, n: nat)
    requires g < |maps| && per <= 8 * |maps[g]| && n <= per && per > 0
    ensures ClearIn(Items(maps, per, first), first + g * per, n) == ClearCount(maps[g], n)
  {
    hide Bit, BitUsed;
    if n > 0 {
      ClearSame(maps, per, first, g, n - 1);
      BitOf(maps, per, g, n - 1);
    }
  }

  /** The counter the drift speaks of is the group's own. */
  lemma CounterIs(maps: seq<Bitmap>, free: seq<nat>, per: nat, first: nat, g: nat)
    requires MapsOk(maps, |free|, per) && g < |free| && free[g] < 0x1_0000 && per > 0
    ensures Counter(Items(maps, per, first), Drifts(free, maps, per)[g], first + g * per, per) == free[g]
  {
    hide Items, ClearCount, ClearIn;
    ClearSame(maps, per, first, g, per);
    DriftBack(free[g], ClearCount(maps[g], per));
  }

  lemma DriftBack(f: nat, c: nat)
    requires f < 0x1_0000
    ensures ((f - c) % 0x1_0000 + c) % 0x1_0000 == f
  {
    DivMod(f - c, 0x1_0000);
    ModUnique((f - c) % 0x1_0000 + c, -((f - c) / 0x1_0000), f, 0x1_0000);
  }

  /** A group has nothing on offer exactly if the allocator passes it by. */
  lemma GroupOffers(maps: seq<Bitmap>, free: seq<nat>, per: nat, first: nat, limit: nat, g: nat)
    requires MapsOk(maps, |free|, per) && g < |free| && free[g] < 0x1_0000 && per > 0
    ensures Offer(Items(maps, per, first), Drifts(free, maps, per)[g], first, per, limit, g) == 0 <==>
              FullBelow(maps, per, free, limit, g)
  {
    hide Items, ClearCount, ClearIn, Bit, Drifts, Counter;
    var used, base, m := Items(maps, per, first), first + g * per, Existing(g, per, limit);
    CounterIs(maps, free, per, first, g);
    ClearNone(used, base, m);
    forall i: nat | i < m ensures base + i in used <==> Bit(maps[g], i) {
      ItemIs(maps, per, first, g, i);
    }
    if ClearIn(used, base, m) == 0 {
      forall i | 0 <= i < per && g * per + i < limit ensures Bit(maps[g], i) {
        assert base + i in used;
      }
    } else {
      var x: nat :| base <= x < base + m && x !in used;
      assert !Bit(maps[g], x - base);
    }
  }

  lemma ItemBelow(g: nat, per: nat, i: nat, limit: int)
    requires ItemNo(g, per, i) < limit
    ensures g * per + i < limit
  {
  }

  lemma ItemIs(maps: seq<Bitmap>, per: nat, first: nat, g: nat, i: nat)
    requires g < |maps| && per <= 8 * |maps[g]| && i < per
    ensures first + g * per + i in Items(maps, per, first) <==> Bit(maps[g], i)
  {
    hide Bit, BitUsed;
    BitOf(maps, per, g, i);
  }

  /** The allocator fails exactly if nothing is on offer. */
  lemma NoneLeft(maps: seq<Bitmap>, free: seq<nat>, per: nat, first: nat, limit: nat)
    requires MapsOk(maps, |free|, per) && per > 0 && forall g :: 0 <= g < |free| ==> free[g] < 0x1_0000
    ensures Left(Items(maps, per, first), Drifts(free, maps, per), first, per, limit, 0) == 0 <==>
              NoneBelow(maps, per, free, limit)
  {
    hide Items, Offer, FullBelow;
    LeftNone(Items(maps, per, first), Drifts(free, maps, per), first, per, limit, 0);
    forall g: nat | g < |free|
      ensures Offer(Items(maps, per, first), Drifts(free, maps, per)[g], first, per, limit, g) == 0 <==>
                FullBelow(maps, per, free, limit, g)
    {
      GroupOffers(maps, free, per, first, limit, g);
    }
  }

  /** Each item handed out is one less on offer. */
  lemma OneLess(maps: seq<Bitmap>, free: seq<nat>, per: nat, first: nat, limit: nat, g: nat, i: nat)
    requires MapsOk(maps, |free|, per) && g < |free| && 0 < free[g] < 0x1_0000 && i < per && g * per + i < limit
             && !Bit(maps[g], i)
    ensures var used, x := Items(maps, per, first), first + ItemNo(g, per, i);
            && Left(used, Drifts(free, maps, per), first, per, limit, 0) > 0
            && Left(used + iset{x}, Drifts(free, maps, per), first, per, limit, 0) ==
                 Left(used, Drifts(free, maps, per), first, per, limit, 0) - 1
  {
    hide Items, Bit, Left, Counter;
    CounterIs(maps, free, per, first, g);
    ItemIs(maps, per, first, g, i);
    LeftTaken(Items(maps, per, first), Drifts(free, maps, per), first, per, limit, 0, g, i);
  }

  /** Where the bit of an item is, and what it says. */
  lemma ItemBit(maps: seq<Bitmap>, groups: nat, per: nat, first: nat, b: nat)
    requires MapsOk(maps, groups, per) && per > 0 && b >= first
    ensures var g, i := (b - first) / per, (b - first) % per;
            && i < per && b == first + ItemNo(g, per, i)
            && (b in Items(maps, per, first) <==> g < groups && Bit(maps[g], i))
  {
    hide Bit;
    DivMod(b - first, per);
  }

  lemma BelowFirst(maps: seq<Bitmap>, per: nat, first: nat, b: nat)
    requires per > 0 && b < first
    ensures b !in Items(maps, per, first)
  {
    hide Bit, BitUsed;
  }

  lemma CounterBounds(d: seq<Desc>, g: nat)
    requires g < |d| && DescsOk(d)
    ensures d[g].freeBlocks < 0x1_0000 && d[g].freeInodes < 0x1_0000
    ensures FreeBlocksOf(d)[g] == d[g].freeBlocks && FreeInodesOf(d)[g] == d[g].freeInodes
  {
  }

  lemma WrapWrap(x: int)
    ensures Wrap32(Wrap32(x)) == Wrap32(x)
  {
  }

  lemma DescCounters(d: seq<Desc>, g: nat, x: Desc)
    requires g < |d| && DescsOk(d) && x.freeBlocks < 0x1_0000 && x.freeInodes < 0x1_0000
    ensures DescsOk(d[g := x])
    ensures FreeBlocksOf(d[g := x]) == FreeBlocksOf(d)[g := x.freeBlocks]
    ensures FreeInodesOf(d[g := x]) == FreeInodesOf(d)[g := x.freeInodes]
    ensures x.freeInodes == d[g].freeInodes ==> FreeInodesOf(d[g := x]) == FreeInodesOf(d)
    ensures x.freeBlocks == d[g].freeBlocks ==> FreeBlocksOf(d[g := x]) == FreeBlocksOf(d)
  {
  }

  // ---- the volume ----

  class Volume {
    const geo: Geometry
    /** Superblock, descriptor, bitmap and inode-table blocks. */
    ghost const meta: set<nat>

    var bmaps: seq<Bitmap>
    var imaps: seq<Bitmap>
    var bgdt: seq<Desc>
    var diskBgdt: seq<Desc>
    var superFreeBlocks: int
    var superFreeInodes: int
    var inodes: seq<Inode>
    var blocks: seq<Block>

    ghost predicate Valid()
      reads this
    {
      && geo.Ok()
      && MapsOk(bmaps, geo.groups, geo.perGroup) && MapsOk(imaps, geo.groups, geo.inodesPerGroup)
      && |bgdt| == geo.groups && diskBgdt == bgdt
      && DescsOk(bgdt) && superFreeBlocks == Wrap32(superFreeBlocks + 0)
      && superFreeInodes == Wrap32(superFreeInodes + 0)
      && |inodes| == geo.inodes + 1 && |blocks| == geo.total
    }

    ghost function View(): Vol
      reads this
      requires Valid()
    {
      Vol(Items(bmaps, geo.perGroup, geo.first), Items(imaps, geo.inodesPerGroup, 1), inodes, blocks)
    }

    /** The drift of every counter from its bitmap. */
    ghost function Books(): Ledger
      reads this
      requires Valid()
    {
      Ledger(Drifts(FreeBlocksOf(bgdt), bmaps, geo.perGroup), Drifts(FreeInodesOf(bgdt), imaps, geo.inodesPerGroup),
             SuperDrift(superFreeBlocks, bmaps, geo.perGroup), SuperDrift(superFreeInodes, imaps, geo.inodesPerGroup))
    }

    /**
     * ext2_bgdt_write_back (fs/ext2/super.c:169-177): block by block, each holding 32
     * descriptors; the block count of fs/ext2/super.c:107-108 covers the last, partly
     * filled one too.
     */
    method WriteDescs()
      requires |diskBgdt| == |bgdt|
      modifies this`diskBgdt
      ensures diskBgdt == bgdt
    {
      var n := |bgdt|;
      var count := (DESC_SIZE * n + BLOCK_SIZE - 1) / BLOCK_SIZE;
      for b := 0 to count
        invariant |diskBgdt| == n
        invariant forall g :: 0 <= g < n && g < DESCS_PER_BLOCK * b ==> diskBgdt[g] == bgdt[g]
      {
        var lo := DESCS_PER_BLOCK * b;
        var hi := if lo + DESCS_PER_BLOCK < n then lo + DESCS_PER_BLOCK else n;
        diskBgdt := diskBgdt[..lo] + bgdt[lo..hi] + diskBgdt[hi..];
      }
    }

    /** ext2_bgdt_write_back, then ext2_super_adjust_free (fs/ext2/super.c:146-167). */
    method WriteBack(blockDelta: int, inodeDelta: int)
      requires |diskBgdt| == |bgdt|
      modifies this`diskBgdt, this`superFreeBlocks, this`superFreeInodes
      ensures diskBgdt == bgdt
      ensures superFreeBlocks == Wrap32(old(superFreeBlocks) + blockDelta)
      ensures superFreeInodes == Wrap32(old(superFreeInodes) + inodeDelta)
    {
      WriteDescs();
      superFreeBlocks := Wrap32(superFreeBlocks + blockDelta);
      superFreeInodes := Wrap32(superFreeInodes + inodeDelta);
    }

    /** fs/ext2/alloc.c:11-46 */
    method AllocBlock() returns (ok: bool, blk: nat)
      requires Valid()
      modifies this
      ensures Valid() && Books() == old(Books())
      ensures ok ==> geo.first <= blk < geo.total && blk !in old(View()).used
      ensures ok ==>
                View() == old(View()).(used := old(View()).used
                + iset{blk}, blocks := old(View()).blocks[blk := ZERO_BLOCK])
      ensures ok ==> old(NoneBelow(bmaps, geo.perGroup, FreeBlocksOf(bgdt), blk - geo.first))
      ensures !ok ==> View() == old(View()) && NoneBelow(bmaps, geo.perGroup, FreeBlocksOf(bgdt), geo.total - geo.first)
      ensures ok <==> BlocksLeft(geo, Books(), old(View()).used) > 0
      ensures ok ==> BlocksLeft(geo, Books(), View().used) == BlocksLeft(geo, Books(), old(View()).used) - 1
    {
      hide BitUsed, Drifts, SuperDrift, Bit, Items, SetBit, NoneBelow, Wrap32, ItemNo, Left;
      var found, g, i := ScanBitmaps(bmaps, geo.perGroup, FreeBlocksOf(bgdt), geo.total - geo.first);
      NoneLeft(bmaps, FreeBlocksOf(bgdt), geo.perGroup, geo.first, geo.total - geo.first);
      hide DescsOk;
      if !found {
        return false, 0;
      }
      ItemBelow(g, geo.perGroup, i, geo.total - geo.first);
      OneLess(bmaps, FreeBlocksOf(bgdt), geo.perGroup, geo.first, geo.total - geo.first, g, i);
      blk := geo.first + ItemNo(g, geo.perGroup, i);
      CounterBounds(bgdt, g);
      WrapWrap(superFreeBlocks - 1);
      TakeBit(bmaps, FreeBlocksOf(bgdt), geo.perGroup, geo.first, g, i, superFreeBlocks);
      DescCounters(bgdt, g, bgdt[g].(freeBlocks := bgdt[g].freeBlocks - 1));
      bmaps := bmaps[g := SetBit(bmaps[g], i)];
      bgdt := bgdt[g := bgdt[g].(freeBlocks := bgdt[g].freeBlocks - 1)];
      WriteBack(-1, 0);
      blocks := blocks[blk := ZERO_BLOCK];
      ok := true;
    }

    /** fs/ext2/alloc.c:48-70; a number outside every group, or already free, is ignored. */
    method FreeBlock(blk: nat)
      requires Valid()
      modifies this
      ensures Valid() && Books() == old(Books())
      ensures View() == old(View()).(used := old(View()).used - iset{blk})
    {
      hide Drifts, SuperDrift, Bit, ClearBit, DescsOk, Wrap16, Wrap32, BitUsed, Items, ItemNo;
      if blk < geo.first {
        BelowFirst(bmaps, geo.perGroup, geo.first, blk);
        return;
      }
      var g, i := (blk - geo.first) / geo.perGroup, (blk - geo.first) % geo.perGroup;
      ItemBit(bmaps, geo.groups, geo.perGroup, geo.first, blk);
      if g >= geo.groups || !Bit(bmaps[g], i) {
        return;
      }
      CounterBounds(bgdt, g);
      WrapWrap(superFreeBlocks + 1);
      GiveBit(bmaps, FreeBlocksOf(bgdt), geo.perGroup, geo.first, g, i, superFreeBlocks);
      var count := Wrap16(bgdt[g].freeBlocks + 1);
      DescCounters(bgdt, g, bgdt[g].(freeBlocks := count));
      bmaps := bmaps[g := ClearBit(bmaps[g], i)];
      bgdt := bgdt[g := bgdt[g].(freeBlocks := count)];
      WriteBack(1, 0);
    }

    /** fs/ext2/alloc.c:72-103 */
    method AllocInode(isDir: bool) returns (ok: bool, ino: nat)
      requires Valid()
      modifies this
      ensures Valid() && Books() == old(Books())
      ensures ok ==> 1 <= ino <= geo.inodes && ino !in old(View()).iused
      ensures ok ==> View() == old(View()).(iused := old(View()).iused + iset{ino})
      ensures ok ==> old(NoneBelow(imaps, geo.inodesPerGroup, FreeInodesOf(bgdt), ino - 1))
      ensures !ok ==> View() == old(View()) && NoneBelow(imaps, geo.inodesPerGroup, FreeInodesOf(bgdt), geo.inodes)
      ensures ok <==> InodesLeft(geo, Books(), old(View()).iused) > 0
    {
      hide BitUsed, Drifts, SuperDrift, Bit, Items, SetBit, NoneBelow, Wrap32, ItemNo, Left;
      var found, g, i := ScanBitmaps(imaps, geo.inodesPerGroup, FreeInodesOf(bgdt), geo.inodes);
      NoneLeft(imaps, FreeInodesOf(bgdt), geo.inodesPerGroup, 1, geo.inodes);
      hide DescsOk;
      if !found {
        return false, 0;
      }
      ItemBelow(g, geo.inodesPerGroup, i, geo.inodes);
      OneLess(imaps, FreeInodesOf(bgdt), geo.inodesPerGroup, 1, geo.inodes, g, i);
      ino := ItemNo(g, geo.inodesPerGroup, i) + 1;
      CounterBounds(bgdt, g);
      WrapWrap(superFreeInodes - 1);
      TakeBit(imaps, FreeInodesOf(bgdt), geo.inodesPerGroup, 1, g, i, superFreeInodes);
      var dirs := if isDir then Wrap16(bgdt[g].usedDirs + 1) else bgdt[g].usedDirs;
      var desc := bgdt[g].(freeInodes := bgdt[g].freeInodes - 1, usedDirs := dirs);
      DescCounters(bgdt, g, desc);
      imaps := imaps[g := SetBit(imaps[g], i)];
      bgdt := bgdt[g := desc];
      WriteBack(0, -1);
      ok := true;
    }

    /** fs/ext2/alloc.c:105-134; also zeroes the inode. */
    method FreeInode(ino: nat, isDir: bool)
      requires Valid()
      modifies this
      ensures Valid() && Books() == old(Books())
      ensures 1 <= ino <= geo.inodes && ino in old(View()).iused ==>
                View() == old(View()).(iused := old(View()).iused
                  - iset{ino}, inodes := old(View()).inodes[ino := ZERO_INODE])
      ensures !(1 <= ino <= geo.inodes && ino in old(View()).iused) ==> View() == old(View())
    {
      hide Drifts, SuperDrift, Bit, ClearBit, DescsOk, Wrap16, Wrap32;
      if ino == 0 || ino > geo.inodes {
        return;
      }
      var g, i := (ino - 1) / geo.inodesPerGroup, (ino - 1) % geo.inodesPerGroup;
      if g >= geo.groups || !Bit(imaps[g], i) {
        return;
      }
      DivMod(ino - 1, geo.inodesPerGroup);
      assert ino in View().iused;
      hide BitUsed, Items;
      CounterBounds(bgdt, g);
      WrapWrap(superFreeInodes + 1);
      GiveBit(imaps, FreeInodesOf(bgdt), geo.inodesPerGroup, 1, g, i, superFreeInodes);
      var dirs := if isDir && bgdt[g].usedDirs > 0 then bgdt[g].usedDirs - 1 else bgdt[g].usedDirs;
      var desc := bgdt[g].(freeInodes := Wrap16(bgdt[g].freeInodes + 1), usedDirs := dirs);
      DescCounters(bgdt, g, desc);
      imaps := imaps[g := ClearBit(imaps[g], i)];
      bgdt := bgdt[g := desc];
      WriteBack(0, 1);
      inodes := inodes[ino := ZERO_INODE];
    }

    /** fs/ext2/inode.c:11-41 */
    method ReadInode(ino: nat) returns (ok: bool, n: Inode)
      requires Valid()
      ensures ok <==> 1 <= ino <= geo.inodes
      ensures ok ==> n == inodes[ino]
    {
      if ino == 0 || ino > geo.inodes {
        return false, ZERO_INODE;
      }
      DivBelow(ino - 1, geo.inodesPerGroup, geo.groups);
      if (ino - 1) / geo.inodesPerGroup >= geo.groups {
        return false, ZERO_INODE;
      }
      return true, inodes[ino];
    }

    /** fs/ext2/inode.c:95-120 */
    method WriteInode(ino: nat, n: Inode) returns (ok: bool)
      requires Valid()
      modifies this`inodes
      ensures Valid() && Books() == old(Books())
      ensures ok <==> 1 <= ino <= geo.inodes
      ensures View() == if ok then old(View()).(inodes := old(View()).inodes[ino := n]) else old(View())
    {
      if ino == 0 || ino > geo.inodes {
        return false;
      }
      inodes := inodes[ino := n];
      return true;
    }

    /**
     * fs/ext2/block.c:41-80; block 0 is refused and a block past the end cannot be read.
     * For a metadata block, blocks stands for whatever bytes are found there: nothing
     * ties them to the bitmaps and tables above.
     */
    method ReadBlock(blk: nat) returns (ok: bool, b: Block)
      requires Valid()
      ensures ok <==> 0 < blk < geo.total
      ensures b == if ok then blocks[blk] else ZERO_BLOCK
    {
      if blk == 0 || blk >= geo.total {
        return false, ZERO_BLOCK;
      }
      return true, blocks[blk];
    }

    /** fs/ext2/block.c:82-112.  Data writes must stay out of the metadata blocks. */
    method WriteBlock(blk: nat, b: Block) returns (ok: bool)
      requires Valid() && blk !in meta
      modifies this`blocks
      ensures Valid() && Books() == old(Books())
      ensures ok <==> 0 < blk < geo.total
      ensures View() == if ok then old(View()).(blocks := old(View()).blocks[blk := b]) else old(View())
    {
      if blk == 0 || blk >= geo.total {
        return false;
      }
      blocks := blocks[blk := b];
      return true;
    }
  }
}
