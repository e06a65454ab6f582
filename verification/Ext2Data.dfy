/**
 * File contents: write_data_blocks (fs/ext2/write.c:62-85), the block iterator
 * (fs/ext2/inode.c:47-93) and the copy loop of ext2_read_file_ino
 * (fs/ext2/file.c:15-75).
 */
module Ext2Data {
  import opened Bytes
  import opened Ext2Refs
  import opened Ext2Volume
  import opened Ext2Sound
  import opened Ext2Blocks

  const MAX_BYTES: nat := 268 * 1024

  /** The bytes of a file: its logical blocks in order, cut at the size; past the last reachable block, zeros. */
  function FileData(n: Inode, blocks: seq<Block>): (d: seq<byte>)
    ensures |d| == n.size
  {
    FileBytes(n, blocks, n.size)
  }

  function FileBytes(n: Inode, blocks: seq<Block>, len: nat): (d: seq<byte>)
    ensures |d| == len
  {
    seq(len, i requires 0 <= i < len => FileByte(n, blocks, i))
  }

  function FileByte(n: Inode, blocks: seq<Block>, i: nat): byte {
    if i / 1024 < MAX_BLOCKS then DataBlock(n, blocks, i / 1024)[i % 1024] else 0
  }

  /** Chunk k of the data, zero-padded to a block. */
  function Chunk(data: seq<byte>, k: nat): Block
    requires 1024 * k < |data|
  {
    var rest := data[1024 * k..];
    if |rest| >= 1024 then rest[..1024] else rest + Zeros(1024 - |rest|)
  }

  lemma ChunkByte(data: seq<byte>, i: nat)
    requires i < |data|
    ensures 1024 * (i / 1024) < |data| && Chunk(data, i / 1024)[i % 1024] == data[i]
  {
  }

  // ---- writing ----

  /** The first idx logical blocks hold the first idx chunks; later ones are unmapped. */
  ghost predicate Prefix(n: Inode, blocks: seq<Block>, data: seq<byte>, idx: nat) {
    && idx <= MAX_BLOCKS
    && (forall k: nat :: k < idx ==> StoredAt(n, blocks, data, k))
    && (forall k: nat :: idx <= k < MAX_BLOCKS ==> Ref(n, blocks, SlotOf(k)) == 0)
  }

  ghost predicate StoredAt(n: Inode, blocks: seq<Block>, data: seq<byte>, k: nat)
    requires k < MAX_BLOCKS
  {
    1024 * k < |data| && DataBlock(n, blocks, k) == Chunk(data, k) && Ref(n, blocks, SlotOf(k)) != 0
  }

  /** All chunks stored: the file reads back as the data. */
  lemma PrefixReads(n: Inode, blocks: seq<Block>, data: seq<byte>, idx: nat)
    requires Prefix(n, blocks, data, idx) && |data| <= 1024 * idx && n.size == |data|
    ensures FileData(n, blocks) == data
  {
    hide Ref, Chunk, DataBlock;
    var d := FileData(n, blocks);
    forall i | 0 <= i < |data| ensures d[i] == data[i] {
      ChunkByte(data, i);
      assert StoredAt(n, blocks, data, i / 1024);
    }
  }

  /** A changed block that n does not refer to. */
  lemma UnreferencedData(n: Inode, blocks: seq<Block>, after: seq<Block>, b: nat)
    requires |after| == |blocks| && b < |blocks| && !RefersTo(n, blocks, b) && b != 0
    requires after == blocks[b := after[b]]
    requires forall s: nat :: s < SLOTS ==> Ref(n, after, s) == Ref(n, blocks, s)
    ensures SameData(n, blocks, n, after, MAX_BLOCKS)
  {
    hide Ref;
    forall j: nat | j < MAX_BLOCKS ensures SameDataAt(n, blocks, n, after, j) {
      assert Ref(n, blocks, SlotOf(j)) != b;
    }
  }

  lemma PrefixKept(n: Inode, blocks: seq<Block>, n': Inode, blocks': seq<Block>, data: seq<byte>, idx: nat)
    requires Prefix(n, blocks, data, idx) && SameData(n, blocks, n', blocks', MAX_BLOCKS)
    ensures Prefix(n', blocks', data, idx)
  {
    hide Ref, DataBlock, Chunk;
    forall k: nat | k < idx ensures StoredAt(n', blocks', data, k) {
      assert StoredAt(n, blocks, data, k) && SameDataAt(n, blocks, n', blocks', k);
    }
    forall k: nat | idx <= k < MAX_BLOCKS ensures Ref(n', blocks', SlotOf(k)) == 0 {
      assert SameDataAt(n, blocks, n', blocks', k);
    }
  }

  lemma PrefixGrows(v: Vol, w: Vol, meta: set<nat>, first: nat, i: nat, data: seq<byte>, idx: nat, b: nat)
    requires Added(v, w, meta, first, i, idx, b) && first > 0 && b >= first && |w.blocks| == |v.blocks|
    requires Prefix(v.inodes[i], v.blocks, data, idx) && 1024 * idx < |data| && v.blocks[b] == Chunk(data, idx)
    ensures Prefix(w.inodes[i], w.blocks, data, idx + 1)
  {
    hide Ref, Chunk, References, Sound;
    var n, n' := v.inodes[i], w.inodes[i];
    forall k: nat | k < idx + 1 ensures StoredAt(n', w.blocks, data, k) {
      if k != idx {
        assert StoredAt(n, v.blocks, data, k) && SameDataAt(n, v.blocks, n', w.blocks, k);
      }
    }
    forall k: nat | idx + 1 <= k < MAX_BLOCKS ensures Ref(n', w.blocks, SlotOf(k)) == 0 {
      assert SameDataAt(n, v.blocks, n', w.blocks, k);
    }
  }

  datatype WriteResult =
    | Written
    | NoFreeBlock            // line 71: nothing was left allocated
    | NotWired(blk: nat)     // line 78: blk was allocated but could not be wired in

  /** The blocks a failed write leaves allocated with nothing referring to them. */
  ghost function Leaked(r: WriteResult): iset<nat> {
    if r.NotWired? then iset{r.blk} else iset{}
  }

  /** How many blocks n chunks take: one each, and from the thirteenth on the indirect block. */
  function Spent(n: nat): nat { if n > INDIRECT then n + 1 else n }

  /** Which way a write of n chunks ends when `left` blocks are on offer. */
  predicate Fate(n: nat, left: nat, r: WriteResult) {
    && (r.Written? <==> n <= MAX_BLOCKS && Spent(n) <= left)
    && (r.NotWired? <==> (n > INDIRECT && left == INDIRECT + 1) || (n > MAX_BLOCKS && left > Spent(MAX_BLOCKS)))
  }

  /** One round of the loop: the new block is allocated, filled, and wired in at idx. */
  lemma WriteRound(v: Vol, meta: set<nat>, first: nat, i: nat, data: seq<byte>, idx: nat, b: nat)
    requires Sound(v, meta, first) && i < |v.inodes| && Prefix(v.inodes[i], v.blocks, data, idx) && 1024 * idx < |data|
    requires b !in v.used && first <= b < |v.blocks|
    ensures var u := v.(used := v.used + iset{b}, blocks := v.blocks[b := Chunk(data, idx)]);
            Sound(u, meta, first) && Loose(u, meta, b) && KeepsOthers(v, u, i)
            && Prefix(v.inodes[i], u.blocks, data, idx)
            && References(v.inodes[i], u.blocks) == References(v.inodes[i], v.blocks)
  {
    hide Ref, Chunk, Prefix, Body;
    var n := v.inodes[i];
    var a := v.(used := v.used + iset{b}, blocks := v.blocks[b := ZERO_BLOCK]);
    var u := v.(used := v.used + iset{b}, blocks := v.blocks[b := Chunk(data, idx)]);
    AllocStep(v, meta, first, b, i);
    LooseStep(a, meta, first, b, Chunk(data, idx));
    assert a.blocks[b := Chunk(data, idx)] == u.blocks;
    forall j: nat | j < |v.inodes| && j != i ensures KeepsInode(v, u, j) {
    }
    NotReferred(v, meta, first, i, b);
    UnreferencedData(n, v.blocks, u.blocks, b);
    PrefixKept(n, v.blocks, n, u.blocks, data, idx);
    SameReferences(n, v.blocks, u.blocks);
  }

  lemma NotReferred(v: Vol, meta: set<nat>, first: nat, i: nat, b: nat)
    requires Sound(v, meta, first) && i < |v.inodes| && b !in v.used
    ensures !RefersTo(v.inodes[i], v.blocks, b)
  {
    hide Ref;
    var owner :| SoundBy(v, meta, first, owner);
  }

  /** Midway through a write that started from v: idx chunks stored, every block taken since is referred to by n. */
  ghost predicate Writing(v: Vol, w: Vol, meta: set<nat>, first: nat, i: nat, data: seq<byte>, idx: nat) {
    && i < |v.inodes| && i < |w.inodes| && Sound(w, meta, first) && Plain(w.inodes[i]) && KeepsOthers(v, w, i)
    && Prefix(w.inodes[i], w.blocks, data, idx)
    && w.used == v.used + References(w.inodes[i], w.blocks)
    && v.used !! References(w.inodes[i], w.blocks)
  }

  /** The round keeps the midway state. */
  lemma WritingGrows(v: Vol, w: Vol, u: Vol, x: Vol, meta: set<nat>, first: nat, i: nat, data: seq<byte>, idx: nat,
      b: nat)
    requires Writing(v, w, meta, first, i, data, idx) && b !in w.used && first <= b < |w.blocks| && first > 0
    requires 1024 * idx < |data|
    requires u == w.(used := w.used + iset{b}, blocks := w.blocks[b := Chunk(data, idx)])
    requires Added(u, x, meta, first, i, idx, b)
    ensures Writing(v, x, meta, first, i, data, idx + 1)
  {
    hide Ref, Chunk, Prefix, Sound, SameData;
    WriteRound(w, meta, first, i, data, idx, b);
    KeepsTransitive(v, w, u, i);
    KeepsTransitive(v, u, x, i);
    PrefixGrows(u, x, meta, first, i, data, idx, b);
  }

  lemma WritingMeans(v: Vol, w: Vol, meta: set<nat>, first: nat, i: nat, data: seq<byte>, idx: nat)
    requires Writing(v, w, meta, first, i, data, idx)
    ensures i < |v.inodes| && i < |w.inodes| && Sound(w, meta, first) && Plain(w.inodes[i]) && KeepsOthers(v, w, i)
    ensures w.used == v.used + References(w.inodes[i], w.blocks) && v.used !! References(w.inodes[i], w.blocks)
    ensures idx <= MAX_BLOCKS
  {
    hide References, KeepsOthers;
  }

  /** After allocating and filling block b, it is loose and may be wired in. */
  lemma WritingRound(v: Vol, w: Vol, meta: set<nat>, first: nat, i: nat, data: seq<byte>, idx: nat, b: nat)
    requires Writing(v, w, meta, first, i, data, idx) && b !in w.used && first <= b < |w.blocks| && 1024 * idx < |data|
    ensures var u := w.(used := w.used + iset{b}, blocks := w.blocks[b := Chunk(data, idx)]);
            && Sound(u, meta, first) && Loose(u, meta, b) && KeepsOthers(v, u, i)
            && (idx < MAX_BLOCKS ==> Ref(u.inodes[i], u.blocks, SlotOf(idx)) == 0)
            && References(u.inodes[i], u.blocks) == References(w.inodes[i], w.blocks)
            && b !in References(w.inodes[i], w.blocks) && b !in v.used && b !in meta
  {
    hide Ref, Chunk, Sound;
    var u := w.(used := w.used + iset{b}, blocks := w.blocks[b := Chunk(data, idx)]);
    WriteRound(w, meta, first, i, data, idx, b);
    KeepsTransitive(v, w, u, i);
  }

  /** Once the data is used up, the inode given its size reads back as the data. */
  lemma WritingEnds(v: Vol, w: Vol, meta: set<nat>, first: nat, i: nat, data: seq<byte>, idx: nat)
    requires Writing(v, w, meta, first, i, data, idx) && |data| <= 1024 * idx && (idx > 0 ==> w.inodes[i].sectors > 0)
    ensures |data| <= MAX_BYTES && FileData(w.inodes[i].(size := |data|), w.blocks) == data
  {
    hide Chunk, References, KeepsOthers, Sound;
    var n := w.inodes[i];
    forall k: nat | k < MAX_BLOCKS ensures SameDataAt(n, w.blocks, n.(size := |data|), w.blocks, k) {
    }
    PrefixKept(n, w.blocks, n.(size := |data|), w.blocks, data, idx);
    PrefixReads(n.(size := |data|), w.blocks, data, idx);
  }

  /** No pointer of n refers to a block. */
  ghost predicate NoRefs(n: Inode, blocks: seq<Block>) {
    forall s: nat :: s < SLOTS ==> Ref(n, blocks, s) == 0
  }

  lemma PlainNoRefs(n: Inode, blocks: seq<Block>)
    requires Plain(n) && NoRefs(n, blocks)
    ensures n.ptr[INDIRECT] == 0
  {
    assert Ref(n, blocks, INDIRECT) == 0;
  }

  lemma WritingStarts(v: Vol, meta: set<nat>, first: nat, i: nat, data: seq<byte>)
    requires Sound(v, meta, first) && i < |v.inodes| && Plain(v.inodes[i]) && NoRefs(v.inodes[i], v.blocks)
    ensures Writing(v, v, meta, first, i, data, 0) && References(v.inodes[i], v.blocks) == iset{}
  {
    hide Ref, Body;
    forall r: nat ensures !RefersTo(v.inodes[i], v.blocks, r) {
    }
  }

  /** One iteration of write_data_blocks (fs/ext2/write.c:70-82); v is the volume the write started from. */
  method WriteChunk(vol: Volume, ghost v: Vol, ghost ino: nat, n: Inode, data: seq<byte>, idx: nat)
    returns (r: WriteResult, n': Inode)
    requires vol.Valid() && 1 <= ino <= vol.geo.inodes && 1024 * idx < |data|
    requires Writing(v, Over(vol.View(), ino, n), vol.meta, vol.geo.first, ino, data, idx)
    modifies vol
    ensures Held(vol, ino, n') && vol.Books() == old(vol.Books())
    ensures vol.inodes == old(vol.inodes) && vol.View().iused == old(vol.View()).iused
    ensures n' == n.(ptr := n'.ptr, sectors := n'.sectors)
    ensures r.Written? ==> n'.sectors > 0
    ensures r.Written? ==> Writing(v, Over(vol.View(), ino, n'), vol.meta, vol.geo.first, ino, data, idx + 1)
    ensures !r.Written? ==> Stopped(v, Over(vol.View(), ino, n'), ino, r)
    ensures var left := BlocksLeft(vol.geo, vol.Books(), old(vol.View()).used);
            && (r.NoFreeBlock? <==> left == 0)
            && (r.NotWired? <==> left > 0 && !Wires(idx, n, left - 1))
            && (r.Written? ==>
                 BlocksLeft(vol.geo, vol.Books(), vol.View().used) == left - (if NeedsIndirect(idx, n) then 2 else 1))
    ensures r.Written? ==> (n'.ptr[INDIRECT] != 0 <==> idx >= INDIRECT || n.ptr[INDIRECT] != 0)
  {
    hide Drifts, SuperDrift, Items, Ref, Chunk, Prefix, Sound, Writing, Added, Loose, References, Plain, KeepsOthers,
         BlocksLeft, Wires;
    ghost var w := Over(vol.View(), ino, n);
    WritingMeans(v, w, vol.meta, vol.geo.first, ino, data, idx);
    var got, blk := vol.AllocBlock();
    if !got {
      return NoFreeBlock, n;
    }
    var buf := Chunk(data, idx);
    WritingRound(v, w, vol.meta, vol.geo.first, ino, data, idx, blk);
    var wrote := vol.WriteBlock(blk, buf);
    ghost var u := Over(vol.View(), ino, n);
    assert u == w.(used := w.used + iset{blk}, blocks := w.blocks[blk := buf]);
    var added, more := AddBlock(vol, ino, n, idx, blk);
    if !added {
      return NotWired(blk), n;
    }
    WritingGrows(v, w, u, Over(vol.View(), ino, more), vol.meta, vol.geo.first, ino, data, idx, blk);
    WritingMeans(v, Over(vol.View(), ino, more), vol.meta, vol.geo.first, ino, data, idx + 1);
    return Written, more;
  }

  /** A write that started from v has stopped at w: what is in use, and that nobody else noticed. */
  ghost predicate Stopped(v: Vol, w: Vol, i: nat, r: WriteResult) {
    && i < |w.inodes| && KeepsOthers(v, w, i)
    && var mine := References(w.inodes[i], w.blocks);
       && w.used == v.used + mine + Leaked(r)
       && v.used !! mine && v.used !! Leaked(r) && mine !! Leaked(r)
  }

  /**
   * write_data_blocks (fs/ext2/write.c:62-85).  `ino` is the inode being written,
   * whose in-memory copy n starts without blocks.  On failure the blocks wired so
   * far stay in n' for the caller to free.
   */
  method WriteDataBlocks(vol: Volume, ghost ino: nat, n: Inode, data: seq<byte>) returns (r: WriteResult, n': Inode)
    requires Held(vol, ino, n) && NoRefs(n, vol.blocks)
    modifies vol
    ensures Held(vol, ino, n') && vol.Books() == old(vol.Books())
    ensures vol.inodes == old(vol.inodes) && vol.View().iused == old(vol.View()).iused
    ensures n' == n.(ptr := n'.ptr, sectors := n'.sectors)
    ensures Stopped(Over(old(vol.View()), ino, n), Over(vol.View(), ino, n'), ino, r)
    ensures r.Written? ==> |data| <= MAX_BYTES && FileData(n'.(size := |data|), vol.blocks) == data
    ensures r.Written? && data != [] ==> n'.sectors > 0
    ensures Fate(BlocksFor(|data|), BlocksLeft(vol.geo, vol.Books(), old(vol.View()).used), r)
    ensures r.Written? ==> BlocksLeft(vol.geo, vol.Books(), vol.View().used) ==
                             BlocksLeft(vol.geo, vol.Books(), old(vol.View()).used) - Spent(BlocksFor(|data|))
  {
    hide Drifts, SuperDrift, Items, Ref, Sound, Writing, References, Plain, KeepsOthers, NoRefs, BlocksLeft;
    ghost var v := Over(vol.View(), ino, n);
    ghost var left := BlocksLeft(vol.geo, vol.Books(), vol.View().used);
    PlainNoRefs(n, vol.blocks);
    n' := n;
    var remaining := |data|;
    var pos: nat := 0;
    var idx: nat := 0;
    WritingStarts(v, vol.meta, vol.geo.first, ino, data);
    while remaining > 0
      invariant vol.Valid() && vol.Books() == old(vol.Books())
      invariant vol.inodes == old(vol.inodes) && vol.View().iused == old(vol.View()).iused
      invariant n' == n.(ptr := n'.ptr, sectors := n'.sectors)
      invariant Writing(v, Over(vol.View(), ino, n'), vol.meta, vol.geo.first, ino, data, idx)
      invariant pos + remaining == |data| && pos == if 1024 * idx < |data| then 1024 * idx else |data|
      invariant idx > 0 ==> n'.sectors > 0
      invariant data != [] && remaining == 0 ==> idx > 0
      invariant idx <= BlocksFor(|data|) && (remaining == 0 ==> idx == BlocksFor(|data|)) && idx <= MAX_BLOCKS
      invariant n'.ptr[INDIRECT] != 0 <==> idx > INDIRECT
      invariant Spent(idx) <= left && BlocksLeft(vol.geo, vol.Books(), vol.View().used) == left - Spent(idx)
      decreases remaining
    {
      var chunk := if remaining < BLOCK_SIZE then remaining else BLOCK_SIZE;
      r, n' := WriteChunk(vol, v, ino, n', data, idx);
      if !r.Written? {
        return;
      }
      pos := pos + chunk;
      remaining := remaining - chunk;
      idx := idx + 1;
    }
    WritingMeans(v, Over(vol.View(), ino, n'), vol.meta, vol.geo.first, ino, data, idx);
    WritingEnds(v, Over(vol.View(), ino, n'), vol.meta, vol.geo.first, ino, data, idx);
    r := Written;
  }

  // ---- reading ----

  function BlocksFor(nbytes: nat): nat { (nbytes + 1023) / 1024 }

  /** The block numbers ext2_iter_blocks hands to its callback (fs/ext2/inode.c:47-93). */
  method IterBlocks(vol: Volume, n: Inode, nbytes: nat) returns (ok: bool, list: seq<nat>)
    requires vol.Valid() && !IsFast(n) && (n.ptr[INDIRECT] != 0 ==> n.ptr[INDIRECT] !in vol.meta)
    ensures ok <==> BlocksFor(nbytes) <= 12 || n.ptr[INDIRECT] < vol.geo.total
    ensures ok ==> |list| <= MAX_BLOCKS && |list| <= BlocksFor(nbytes)
    ensures ok && |list| < BlocksFor(nbytes) && |list| < MAX_BLOCKS ==> |list| == 12 && n.ptr[INDIRECT] == 0
    ensures ok ==> forall k: nat :: k < |list| ==> list[k] == Ref(n, vol.blocks, SlotOf(k))
  {
    hide U32;
    var remaining := nbytes;
    list := [];
    var i: nat := 0;
    while i < 12 && remaining > 0
      invariant i <= 12 && |list| == i
      invariant remaining == if 1024 * i <= nbytes then nbytes - 1024 * i else 0
      invariant i > 0 ==> 1024 * (i - 1) < nbytes
      invariant forall k: nat :: k < |list| ==> list[k] == n.ptr[k]
    {
      remaining := remaining - if remaining < BLOCK_SIZE then remaining else BLOCK_SIZE;
      list := list + [n.ptr[i]];
      i := i + 1;
    }
    if remaining == 0 || n.ptr[INDIRECT] == 0 {
      return true, list;
    }
    var read, ind := vol.ReadBlock(n.ptr[INDIRECT]);
    if !read {
      return false, [];
    }
    var p: nat := 0;
    while p < 256 && remaining > 0
      invariant p <= 256 && |list| == 12 + p
      invariant remaining == if 1024 * (12 + p) <= nbytes then nbytes - 1024 * (12 + p) else 0
      invariant 1024 * (11 + p) < nbytes
      invariant forall k: nat :: k < |list| ==> list[k] == Ref(n, vol.blocks, SlotOf(k))
    {
      remaining := remaining - if remaining < BLOCK_SIZE then remaining else BLOCK_SIZE;
      list := list + [U32(ind, 4 * p)];
      p := p + 1;
    }
    ok := true;
  }

  /** Every reference of n names a readable data block. */
  ghost predicate Readable(vol: Volume, n: Inode)
    reads vol
  {
    forall s: nat :: s < SLOTS && Ref(n, vol.blocks, s) != 0 ==>
        Ref(n, vol.blocks, s) < vol.geo.total && Ref(n, vol.blocks, s) !in vol.meta
  }

  /** ext2_read_file_ino's copy loop (fs/ext2/file.c:15-37, 60-70) for the first `size` bytes. */
  method ReadData(vol: Volume, n: Inode, size: nat) returns (ok: bool, data: seq<byte>)
    requires vol.Valid() && vol.geo.total == |vol.blocks| && !IsFast(n) && Readable(vol, n)
    ensures ok && data == FileBytes(n, vol.blocks, size)
  {
    assert Ref(n, vol.blocks, INDIRECT) == n.ptr[INDIRECT];
    hide Ref, DataBlock, Put, FileByte;
    var list;
    ok, list := IterBlocks(vol, n, size);
    data := Zeros(size);
    var dst: nat := 0;
    var remaining := size;
    var k: nat := 0;
    while k < |list|
      invariant k <= |list| && |data| == size && dst + remaining == size
      invariant dst == if 1024 * k <= size then 1024 * k else size
      invariant Copied(n, vol.blocks, data, dst)
    {
      var chunk := if remaining < BLOCK_SIZE then remaining else BLOCK_SIZE;
      CopyChunk(n, vol.blocks, data, k, dst, chunk);
      if list[k] != 0 {
        var read, blk := vol.ReadBlock(list[k]);
        data := Put(data, dst, blk[..chunk]);
      }
      dst := dst + chunk;
      remaining := remaining - chunk;
      k := k + 1;
    }
    CopyEnds(n, vol.blocks, data, dst, |list|);
  }

  /** The first dst bytes are copied and the rest of the buffer is still zero. */
  ghost predicate Copied(n: Inode, blocks: seq<Block>, data: seq<byte>, dst: nat) {
    forall i: nat :: i < |data| ==> data[i] == if i < dst then FileByte(n, blocks, i) else 0
  }

  lemma CopyChunk(n: Inode, blocks: seq<Block>, data: seq<byte>, k: nat, dst: nat, chunk: nat)
    requires Copied(n, blocks, data, dst) && k < MAX_BLOCKS && dst == 1024 * k && chunk <= 1024 && dst + chunk <= |data|
    requires chunk == 1024 || dst + chunk == |data|
    ensures var r := Ref(n, blocks, SlotOf(k));
            && (r == 0 ==> Copied(n, blocks, data, dst + chunk))
            && (0 < r < |blocks| ==> Copied(n, blocks, Put(data, dst, blocks[r][..chunk]), dst + chunk))
  {
    hide Ref, Put;
    var b := DataBlock(n, blocks, k);
    assert forall i: nat :: dst <= i < dst + chunk ==> FileByte(n, blocks, i) == b[i - dst];
    var r := Ref(n, blocks, SlotOf(k));
    if 0 < r < |blocks| {
      var d := Put(data, dst, blocks[r][..chunk]);
      assert |d| == |data|;
      assert forall i: nat :: i < |d| ==> d[i] == if dst <= i < dst + chunk then b[i - dst] else data[i];
    }
  }

  lemma CopyEnds(n: Inode, blocks: seq<Block>, data: seq<byte>, dst: nat, count: nat)
    requires Copied(n, blocks, data, dst) && dst == if 1024 * count <= |data| then 1024 * count else |data|
    requires count < BlocksFor(|data|) && count < MAX_BLOCKS ==> count == 12 && n.ptr[INDIRECT] == 0
    requires count <= MAX_BLOCKS && !IsFast(n)
    ensures data == FileBytes(n, blocks, |data|)
  {
    forall i: nat | i < |data| ensures data[i] == FileByte(n, blocks, i) {
      if i >= dst && i / 1024 < MAX_BLOCKS {
        assert i / 1024 >= 12;
        assert Ref(n, blocks, SlotOf(i / 1024)) == 0;
      }
    }
  }

  // ---- contents of untouched files ----

  lemma FileDataOfBody(n: Inode, blocks: seq<Block>, i: nat)
    requires i < n.size
    ensures i / 1024 < MAX_BLOCKS ==>
              i / 1024 < BlockCount(n) && FileData(n, blocks)[i] == Body(n, blocks)[i / 1024][i % 1024]
    ensures i / 1024 >= MAX_BLOCKS ==> FileData(n, blocks)[i] == 0
  {
    hide Ref;
  }

  /** A kept inode reads as before. */
  lemma KeptReads(v: Vol, w: Vol, i: nat, j: nat)
    requires KeepsOthers(v, w, i) && j < |v.inodes| && j != i
    ensures w.inodes[j] == v.inodes[j] && FileData(w.inodes[j], w.blocks) == FileData(v.inodes[j], v.blocks)
  {
    hide Body, FileData;
    assert KeepsInode(v, w, j);
    var n := v.inodes[j];
    var a, b := FileData(n, v.blocks), FileData(n, w.blocks);
    forall i | 0 <= i < n.size ensures a[i] == b[i] {
      FileDataOfBody(n, v.blocks, i);
      FileDataOfBody(n, w.blocks, i);
    }
  }
}
