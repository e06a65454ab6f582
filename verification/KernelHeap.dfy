/**
 * The kernel heap in its bytes (kernel/heap.c): block headers linked through the
 * 8 MiB region, proved to spell the block list of HeapLayout.
 */
module KernelHeap {
  import opened Bytes
  import opened HeapLayout

  const MAGIC: nat := 0xC0FFEE42

  datatype Header = Header(size: nat, free: bool, next: nat, prev: nat)

  predicate Storable(h: Header) {
    h.size < 0x1_0000_0000 && h.next < 0x1_0000_0000 && h.prev < 0x1_0000_0000
  }

  /** The fields of the heap_block_t at offset o. */
  function Decode(mem: seq<byte>, o: nat): (h: Header)
    requires o + HEADER <= |mem|
    ensures Storable(h)
  {
    Header(U32(mem, o + 4), mem[o + 8] != 0, U32(mem, o + 12), U32(mem, o + 16))
  }

  function Encode(h: Header): (b: seq<byte>)
    requires Storable(h)
    ensures |b| == HEADER
  {
    Enc32(MAGIC) + Enc32(h.size) + [if h.free then 1 else 0, 0, 0, 0] + Enc32(h.next) + Enc32(h.prev)
  }

  function Store(mem: seq<byte>, o: nat, h: Header): (m: seq<byte>)
    requires o + HEADER <= |mem| && Storable(h)
    ensures |m| == |mem|
  {
    Put(mem, o, Encode(h))
  }

  /** A header with the magic number and these fields is stored at o. */
  ghost predicate HeaderAt(mem: seq<byte>, o: nat, h: Header) {
    o + HEADER <= |mem| && U32(mem, o) == MAGIC && Decode(mem, o) == h
  }

  lemma EncodeDecode(h: Header)
    requires Storable(h)
    ensures U32(Encode(h), 0) == MAGIC && Decode(Encode(h), 0) == h
  {
    hide U32, Enc32;
    var b := Encode(h);
    assert b[0..4] == Enc32(MAGIC)[0..4];
    U32Bytes(b, 0, Enc32(MAGIC), 0);
    assert b[4..8] == Enc32(h.size)[0..4];
    U32Bytes(b, 4, Enc32(h.size), 0);
    assert b[12..16] == Enc32(h.next)[0..4];
    U32Bytes(b, 12, Enc32(h.next), 0);
    assert b[16..20] == Enc32(h.prev)[0..4];
    U32Bytes(b, 16, Enc32(h.prev), 0);
    assert b[8] == if h.free then 1 else 0;
  }

  /** Headers depend on their own 20 bytes only. */
  lemma SameHeader(mem: seq<byte>, o: nat, m: seq<byte>, p: nat, h: Header)
    requires o + HEADER <= |mem| && p + HEADER <= |m| && mem[o..o + HEADER] == m[p..p + HEADER] && HeaderAt(mem, o, h)
    ensures HeaderAt(m, p, h)
  {
    hide U32;
    var x, y := mem[o..o + HEADER], m[p..p + HEADER];
    assert mem[o + 8] == x[8] && m[p + 8] == y[8];
    Words(mem, o, m, p, 0);
    Words(mem, o, m, p, 4);
    Words(mem, o, m, p, 12);
    Words(mem, o, m, p, 16);
  }

  lemma Words(mem: seq<byte>, o: nat, m: seq<byte>, p: nat, at: nat)
    requires at + 4 <= HEADER && o + HEADER <= |mem| && p + HEADER <= |m| && mem[o..o + HEADER] == m[p..p + HEADER]
    ensures U32(mem, o + at) == U32(m, p + at)
  {
    hide U32;
    var x, y := mem[o..o + HEADER], m[p..p + HEADER];
    var a, b := mem[o + at..o + at + 4], m[p + at..p + at + 4];
    forall t | 0 <= t < 4 ensures a[t] == b[t] {
      assert a[t] == x[at + t] && b[t] == y[at + t];
    }
    assert a == b;
    U32Bytes(mem, o + at, m, p + at);
  }

  lemma Stored(mem: seq<byte>, o: nat, h: Header)
    requires o + HEADER <= |mem| && Storable(h)
    ensures HeaderAt(Store(mem, o, h), o, h)
  {
    hide Encode, Decode, U32;
    EncodeDecode(h);
    PutSlice(mem, o, Encode(h));
    assert Encode(h)[0..HEADER] == Encode(h);
    SameHeader(Encode(h), 0, Store(mem, o, h), o, h);
  }

  lemma StoreKeeps(mem: seq<byte>, o: nat, h: Header, lo: nat, hi: nat)
    requires o + HEADER <= |mem| && Storable(h) && lo <= hi <= |mem| && (hi <= o || o + HEADER <= lo)
    ensures Store(mem, o, h)[lo..hi] == mem[lo..hi]
  {
    hide Encode;
    PutOutside(mem, o, Encode(h), lo, hi);
  }

  // ---- a block list laid out in memory ----

  /** The address of block i; NULL past either end of the list. */
  function Addr(base: nat, cs: Cells, i: int): nat {
    if 0 <= i < |cs| then base + Off(cs, i) else 0
  }

  /** The header block i must have. */
  function Node(base: nat, cs: Cells, i: nat): Header
    requires i < |cs|
  {
    Header(cs[i].size, cs[i].free, Addr(base, cs, i + 1), Addr(base, cs, i - 1))
  }

  ghost predicate Fine(base: nat, cs: Cells) {
    0 < base && base + HEAP_SIZE < 0x1_0000_0000 && cs != [] && Off(cs, |cs|) == HEAP_SIZE
  }

  ghost predicate Laid(mem: seq<byte>, base: nat, cs: Cells) {
    |mem| == HEAP_SIZE && Fine(base, cs) && forall i: nat :: i < |cs| ==> HeaderAt(mem, Off(cs, i), Node(base, cs, i))
  }

  lemma NodeStorable(base: nat, cs: Cells, i: nat)
    requires Fine(base, cs) && i < |cs|
    ensures Storable(Node(base, cs, i)) && Off(cs, i) + HEADER + cs[i].size <= HEAP_SIZE
    ensures i + 1 < |cs| ==> Off(cs, i + 1) == Off(cs, i) + HEADER + cs[i].size
  {
    OffBefore(cs, i, |cs|);
    if i + 1 < |cs| {
      OffBefore(cs, i + 1, |cs|);
    }
    if i > 0 {
      OffBefore(cs, i - 1, |cs|);
    }
  }

  /** What live blocks hold is the same in both memories. */
  ghost predicate SamePayloads(mem: seq<byte>, m: seq<byte>, cs: Cells) {
    |mem| == |m| == HEAP_SIZE && forall i: nat :: i < |cs| && !cs[i].free ==> SamePayload(mem, m, cs, i)
  }

  ghost predicate SamePayload(mem: seq<byte>, m: seq<byte>, cs: Cells, i: nat)
    requires i < |cs|
  {
    var lo, hi := Off(cs, i) + HEADER, Off(cs, i) + HEADER + cs[i].size;
    hi <= |mem| && hi <= |m| && m[lo..hi] == mem[lo..hi]
  }

  /** A store into header k of the list, or into the payload of a free block k, disturbs no live payload. */
  lemma StoreSpares(mem: seq<byte>, base: nat, cs: Cells, k: nat, o: nat, h: Header)
    requires |mem| == HEAP_SIZE && Fine(base, cs) && k < |cs| && Storable(h)
    requires o == Off(cs, k) || (cs[k].free && Off(cs, k) <= o && o + HEADER <= Off(cs, k) + HEADER + cs[k].size)
    ensures o + HEADER <= |mem| && SamePayloads(mem, Store(mem, o, h), cs)
  {
    hide Off, Store;
    NodeStorable(base, cs, k);
    forall i: nat | i < |cs| && !cs[i].free ensures SamePayload(mem, Store(mem, o, h), cs, i) {
      NodeStorable(base, cs, i);
      if i < k {
        OffBefore(cs, i, k);
      } else if k < i {
        OffBefore(cs, k, i);
      }
      StoreKeeps(mem, o, h, Off(cs, i) + HEADER, Off(cs, i) + HEADER + cs[i].size);
    }
  }

  lemma SpareBoth(a: seq<byte>, b: seq<byte>, c: seq<byte>, cs: Cells)
    requires SamePayloads(a, b, cs) && SamePayloads(b, c, cs)
    ensures SamePayloads(a, c, cs)
  {
    hide Off;
    forall i: nat | i < |cs| && !cs[i].free ensures SamePayload(a, c, cs, i) {
      assert SamePayload(a, b, cs, i) && SamePayload(b, c, cs, i);
    }
  }

  lemma SpareSelf(a: seq<byte>, base: nat, cs: Cells)
    requires |a| == HEAP_SIZE && Fine(base, cs)
    ensures SamePayloads(a, a, cs)
  {
    hide Off;
    forall i: nat | i < |cs| && !cs[i].free ensures SamePayload(a, a, cs, i) {
      NodeStorable(base, cs, i);
    }
  }

  // ---- what the stores of each step do to the list ----

  /** The header of block i is untouched by a store at another block's header. */
  lemma HeaderKept(mem: seq<byte>, base: nat, cs: Cells, o: nat, h: Header, i: nat)
    requires |mem| == HEAP_SIZE && Fine(base, cs) && i < |cs| && Storable(h) && o + HEADER <= |mem|
    requires o + HEADER <= Off(cs, i) || Off(cs, i) + HEADER <= o
    ensures Off(cs, i) + HEADER <= |mem|
    ensures forall n :: HeaderAt(mem, Off(cs, i), n) ==> HeaderAt(Store(mem, o, h), Off(cs, i), n)
  {
    hide Off, Store, HeaderAt;
    NodeStorable(base, cs, i);
    var p := Off(cs, i);
    StoreKeeps(mem, o, h, p, p + HEADER);
    forall n | HeaderAt(mem, p, n) ensures HeaderAt(Store(mem, o, h), p, n) {
      SameHeader(mem, p, Store(mem, o, h), p, n);
    }
  }

  /** Changing the free mark of block k. */
  lemma MarkStep(mem: seq<byte>, base: nat, cs: Cells, k: nat, free: bool)
    requires Laid(mem, base, cs) && k < |cs|
    ensures var ds := cs[k := cs[k].(free := free)];
            && Storable(Node(base, cs, k).(free := free)) && Off(cs, k) + HEADER <= |mem|
            && Laid(Store(mem, Off(cs, k), Node(base, cs, k).(free := free)), base, ds)
  {
    hide Off, Store, HeaderAt, Node;
    var ds := cs[k := cs[k].(free := free)];
    var h := Node(base, cs, k).(free := free);
    NodeStorable(base, cs, k);
    MarkOffsets(cs, k, free, |cs|);
    forall i: nat | i < |ds| ensures HeaderAt(Store(mem, Off(cs, k), h), Off(ds, i), Node(base, ds, i)) {
      MarkNode(base, cs, k, free, i);
      Apart(cs, i, k);
      Stored(mem, Off(cs, k), h);
      if i != k {
        HeaderKept(mem, base, cs, Off(cs, k), h, i);
        assert HeaderAt(mem, Off(cs, i), Node(base, cs, i));
      }
    }
  }

  lemma MarkNode(base: nat, cs: Cells, k: nat, free: bool, i: nat)
    requires k < |cs| && i < |cs|
    ensures var ds := cs[k := cs[k].(free := free)];
            Off(ds, i) == Off(cs, i) && Node(base, ds, i) == if i == k then Node(base, cs, i).(free := free)
              else Node(base, cs, i)
  {
    hide Off;
    MarkOffsets(cs, k, free, i);
    MarkOffsets(cs, k, free, i + 1);
    if i > 0 {
      MarkOffsets(cs, k, free, i - 1);
    }
  }

  lemma {:induction false} MarkOffsets(cs: Cells, k: nat, free: bool, i: nat)
    requires k < |cs| && i <= |cs|
    ensures Off(cs[k := cs[k].(free := free)], i) == Off(cs, i)
  {
    if i > 0 {
      MarkOffsets(cs, k, free, i - 1);
    }
  }

  /** The memory a split leaves: the new header, the follower's back link, the block's own header. */
  function SplitMem(mem: seq<byte>, base: nat, ds: Cells, k: nat): seq<byte>
    requires |mem| == HEAP_SIZE && k + 1 < |ds| && Off(ds, |ds|) == HEAP_SIZE && 0 < base
             && base + HEAP_SIZE < 0x1_0000_0000
  {
    NodeStorable(base, ds, k);
    NodeStorable(base, ds, k + 1);
    var m1 := Store(mem, Off(ds, k + 1), Node(base, ds, k + 1));
    var m2 := if k + 2 < |ds| then (NodeStorable(base, ds, k + 2); Store(m1, Off(ds, k + 2), Node(base, ds, k + 2)))
      else m1;
    Store(m2, Off(ds, k), Node(base, ds, k))
  }

  /** Blocks apart from the three written ones have the same header before and after a split. */
  lemma SplitNodes(base: nat, cs: Cells, ds: Cells, k: nat, i: nat)
    requires SplitAt(cs, ds, k) && i < |cs| && i != k && i != k + 1
    ensures i < k ==> Off(ds, i) == Off(cs, i) && Node(base, ds, i) == Node(base, cs, i)
    ensures i > k + 1 ==> Off(ds, i + 1) == Off(cs, i) && Node(base, ds, i + 1) == Node(base, cs, i)
  {
    hide Off;
    SplitOffsets(cs, ds, k, i);
    SplitOffsets(cs, ds, k, i + 1);
    if i > 0 {
      SplitOffsets(cs, ds, k, i - 1);
    }
    if i < k {
      assert cs[..k][i] == ds[..k][i];
    } else {
      assert cs[k + 1..][i - k - 1] == ds[k + 2..][i - k - 1];
    }
  }

  lemma SplitFine(base: nat, cs: Cells, ds: Cells, k: nat)
    requires SplitAt(cs, ds, k)
    ensures Fine(base, cs) <==> Fine(base, ds)
  {
    SplitOffsets(cs, ds, k, |cs|);
  }

  lemma SplitStep(mem: seq<byte>, base: nat, cs: Cells, ds: Cells, k: nat)
    requires Laid(mem, base, cs) && SplitAt(cs, ds, k)
    ensures Fine(base, ds) && Laid(SplitMem(mem, base, ds, k), base, ds)
  {
    hide Off, Store, HeaderAt, Node, SplitAt;
    SplitFine(base, cs, ds, k);
    SplitSize(cs, ds, k);
    forall j: nat | j < |ds| ensures HeaderAt(SplitMem(mem, base, ds, k), Off(ds, j), Node(base, ds, j)) {
      if j < k {
        SplitNodes(base, cs, ds, k, j);
        assert HeaderAt(mem, Off(cs, j), Node(base, cs, j));
      } else if j > k + 2 {
        SplitNodes(base, cs, ds, k, j - 1);
        assert HeaderAt(mem, Off(cs, j - 1), Node(base, cs, j - 1));
      }
      SplitMemAt(mem, base, ds, k, j);
    }
  }

  lemma SplitSize(cs: Cells, ds: Cells, k: nat)
    requires SplitAt(cs, ds, k)
    ensures |ds| == |cs| + 1 && k < |cs|
  {
  }

  lemma SplitMemAt(mem: seq<byte>, base: nat, ds: Cells, k: nat, j: nat)
    requires |mem| == HEAP_SIZE && Fine(base, ds) && k + 1 < |ds| && j < |ds|
    requires j < k || j > k + 2 ==> HeaderAt(mem, Off(ds, j), Node(base, ds, j))
    ensures HeaderAt(SplitMem(mem, base, ds, k), Off(ds, j), Node(base, ds, j))
  {
    hide Off, Store, HeaderAt, Node;
    NodeStorable(base, ds, k);
    NodeStorable(base, ds, k + 1);
    Apart(ds, j, k);
    Apart(ds, j, k + 1);
    var m1 := Store(mem, Off(ds, k + 1), Node(base, ds, k + 1));
    Stored(mem, Off(ds, k + 1), Node(base, ds, k + 1));
    if j != k + 1 {
      HeaderKept(mem, base, ds, Off(ds, k + 1), Node(base, ds, k + 1), j);
    }
    var m2 := m1;
    if k + 2 < |ds| {
      NodeStorable(base, ds, k + 2);
      Apart(ds, j, k + 2);
      m2 := Store(m1, Off(ds, k + 2), Node(base, ds, k + 2));
      Stored(m1, Off(ds, k + 2), Node(base, ds, k + 2));
      if j != k + 2 {
        HeaderKept(m1, base, ds, Off(ds, k + 2), Node(base, ds, k + 2), j);
      }
    }
    Stored(m2, Off(ds, k), Node(base, ds, k));
    if j != k {
      HeaderKept(m2, base, ds, Off(ds, k), Node(base, ds, k), j);
    }
  }

  lemma Apart(cs: Cells, i: nat, j: nat)
    requires i < |cs| && j < |cs|
    ensures i == j || Off(cs, i) + HEADER <= Off(cs, j) || Off(cs, j) + HEADER <= Off(cs, i)
  {
    if i < j {
      OffBefore(cs, i, j);
    } else if j < i {
      OffBefore(cs, j, i);
    }
  }

  /** The memory a merge leaves: the follower's back link and the block's own header. */
  function JoinMem(mem: seq<byte>, base: nat, cs: Cells, k: nat): seq<byte>
    requires |mem| == HEAP_SIZE && k < |cs| && Off(cs, |cs|) == HEAP_SIZE && 0 < base
             && base + HEAP_SIZE < 0x1_0000_0000
  {
    NodeStorable(base, cs, k);
    var m1 := Store(mem, Off(cs, k), Node(base, cs, k));
    if k + 1 < |cs| then (NodeStorable(base, cs, k + 1); Store(m1, Off(cs, k + 1), Node(base, cs, k + 1))) else m1
  }

  lemma JoinStep(mem: seq<byte>, base: nat, cs: Cells, ds: Cells, k: nat)
    requires Laid(mem, base, ds) && SplitAt(cs, ds, k)
    ensures Fine(base, cs) && Laid(JoinMem(mem, base, cs, k), base, cs)
  {
    hide Off, Store, HeaderAt, Node, SplitAt;
    SplitFine(base, cs, ds, k);
    SplitSize(cs, ds, k);
    forall j: nat | j < |cs| ensures HeaderAt(JoinMem(mem, base, cs, k), Off(cs, j), Node(base, cs, j)) {
      if j < k {
        SplitNodes(base, cs, ds, k, j);
        assert HeaderAt(mem, Off(ds, j), Node(base, ds, j));
      } else if j > k + 1 {
        SplitNodes(base, cs, ds, k, j);
        assert HeaderAt(mem, Off(ds, j + 1), Node(base, ds, j + 1));
      }
      JoinMemAt(mem, base, cs, k, j);
    }
  }

  lemma JoinMemAt(mem: seq<byte>, base: nat, cs: Cells, k: nat, j: nat)
    requires |mem| == HEAP_SIZE && Fine(base, cs) && k < |cs| && j < |cs|
    requires j < k || j > k + 1 ==> HeaderAt(mem, Off(cs, j), Node(base, cs, j))
    ensures HeaderAt(JoinMem(mem, base, cs, k), Off(cs, j), Node(base, cs, j))
  {
    hide Off, Store, HeaderAt, Node;
    NodeStorable(base, cs, k);
    Apart(cs, j, k);
    var m1 := Store(mem, Off(cs, k), Node(base, cs, k));
    Stored(mem, Off(cs, k), Node(base, cs, k));
    if j != k {
      HeaderKept(mem, base, cs, Off(cs, k), Node(base, cs, k), j);
    }
    if k + 1 < |cs| {
      NodeStorable(base, cs, k + 1);
      Apart(cs, j, k + 1);
      Stored(m1, Off(cs, k + 1), Node(base, cs, k + 1));
      if j != k + 1 {
        HeaderKept(m1, base, cs, Off(cs, k + 1), Node(base, cs, k + 1), j);
      }
    }
  }

  // ---- the operations ----

  /** Block k split so that its first part holds `size` bytes; both parts still free. */
  function SplitCells(cs: Cells, k: nat, size: nat): Cells
    requires k < |cs| && cs[k].size >= size + HEADER
  {
    cs[..k] + [Cell(size, cs[k].free), Cell(cs[k].size - size - HEADER, true)] + cs[k + 1..]
  }

  /** The headers split_block computes are those of the split list. */
  lemma SplitHeaders(base: nat, cs: Cells, k: nat, size: nat)
    requires Fine(base, cs) && k < |cs| && cs[k].size >= size + HEADER
    ensures var ds := SplitCells(cs, k, size); var a, b := base + Off(cs, k), Node(base, cs, k);
            var nx := a + HEADER + size;
            && SplitAt(cs, ds, k) && Off(ds, k) == Off(cs, k) && Off(ds, k + 1) == Off(cs, k) + HEADER + size
            && Node(base, ds, k + 1) == Header(b.size - size - HEADER, true, b.next, a)
            && Node(base, ds, k) == b.(next := nx, size := size)
            && (b.next != 0 <==> k + 1 < |cs|)
            && (k + 1 < |cs| ==> b.next == base + Off(cs, k + 1) && Off(ds, k + 2) == Off(cs, k + 1)
                                 && Node(base, ds, k + 2) == Node(base, cs, k + 1).(prev := nx))
  {
    hide Off;
    var ds := SplitCells(cs, k, size);
    assert ds[..k] == cs[..k] && ds[k + 2..] == cs[k + 1..];
    SplitOffsets(cs, ds, k, k);
    SplitOffsets(cs, ds, k, k + 1);
    if k > 0 {
      SplitOffsets(cs, ds, k, k - 1);
    }
    if k + 1 < |cs| {
      SplitOffsets(cs, ds, k, k + 2);
      assert ds[k + 2] == cs[k + 1];
    }
  }

  /** The headers the first half of coalesce computes are those of the merged list. */
  lemma JoinHeaders(base: nat, ds: Cells, k: nat)
    requires Fine(base, ds) && k + 1 < |ds| && ds[k + 1].free
    ensures var cs := JoinNext(ds, k); var b, n := Node(base, ds, k), Node(base, ds, k + 1);
            && SplitAt(cs, ds, k) && Off(cs, k) == Off(ds, k)
            && Node(base, cs, k) == b.(size := b.size + HEADER + n.size, next := n.next)
            && (n.next != 0 <==> k + 2 < |ds|)
            && (k + 2 < |ds| ==> n.next == base + Off(ds, k + 2) && Off(cs, k + 1) == Off(ds, k + 2)
                                 && Node(base, cs, k + 1) == Node(base, ds, k + 2).(prev := base + Off(ds, k)))
  {
    hide Off;
    var cs := JoinNext(ds, k);
    assert ds[..k] == cs[..k] && ds[k + 2..] == cs[k + 1..];
    SplitOffsets(cs, ds, k, k);
    SplitOffsets(cs, ds, k, k + 1);
    if k > 0 {
      SplitOffsets(cs, ds, k, k - 1);
    }
    if k + 2 < |ds| {
      SplitOffsets(cs, ds, k, k + 2);
      assert ds[k + 2] == cs[k + 1];
    }
  }

  class Heap {
    const base: nat
    var mem: seq<byte>
    /** The blocks the headers spell. */
    ghost var cells: Cells

    ghost predicate Valid()
      reads this
    {
      Laid(mem, base, cells) && Sane(cells)
    }

    /** heap_init (kernel/heap.c:25-35) over a region with any contents */
    constructor (start: nat, region: seq<byte>)
      requires 0 < start && start + HEAP_SIZE < 0x1_0000_0000 && |region| == HEAP_SIZE
      ensures Valid() && base == start && cells == [Cell(HEAP_SIZE - HEADER, true)]
    {
      base := start;
      var h := Header(HEAP_SIZE - HEADER, true, 0, 0);
      mem := Store(region, 0, h);
      cells := [Cell(HEAP_SIZE - HEADER, true)];
      Stored(region, 0, h);
      assert Off([Cell(HEAP_SIZE - HEADER, true)], 1) == HEAP_SIZE;
    }

    method Load(a: nat) returns (h: Header)
      requires base <= a && a - base + HEADER <= |mem|
      ensures h == Decode(mem, a - base)
    {
      h := Decode(mem, a - base);
    }

    method Save(a: nat, h: Header)
      requires base <= a && a - base + HEADER <= |mem| && Storable(h)
      modifies this`mem
      ensures mem == Store(old(mem), a - base, h)
    {
      mem := Store(mem, a - base, h);
    }

    /** split_block (kernel/heap.c:37-53) on block k, which is free */
    method SplitBlock(a: nat, size: nat, ghost k: nat)
      requires Laid(mem, base, cells) && k < |cells| && a == base + Off(cells, k) && Fits(cells[k], size)
      modifies this
      ensures Laid(mem, base, cells) && SamePayloads(old(mem), mem, old(cells))
      ensures cells == if old(cells)[k].size < size + HEADER + MIN_REST then old(cells)
              else SplitCells(old(cells), k, size)
    {
      hide Off, Store, Node, HeaderAt, Decode, SplitMem;
      ghost var cs := cells;
      NodeStorable(base, cs, k);
      LaidAt(mem, base, cs, k);
      var b := Load(a);
      SpareSelf(mem, base, cs);
      if b.size < size + HEADER + MIN_REST {
        return;
      }
      ghost var ds := SplitCells(cs, k, size);
      SplitHeaders(base, cs, k, size);
      SplitStep(mem, base, cs, ds, k);
      SplitSpares(mem, base, cs, ds, k);
      SplitMemIs(mem, base, ds, k);
      NodeStorable(base, ds, k);
      NodeStorable(base, ds, k + 1);
      var next := a + HEADER + size;
      Save(next, Header(b.size - size - HEADER, true, b.next, a));
      if b.next != 0 {
        NodeStorable(base, cs, k + 1);
        NodeStorable(base, ds, k + 2);
        LaidAt(old(mem), base, cs, k + 1);
        HeaderKept(old(mem), base, cs, next - base, Node(base, ds, k + 1), k + 1);
        HeaderIs(mem, Off(cs, k + 1), Node(base, cs, k + 1));
        var follower := Load(b.next);
        Save(b.next, follower.(prev := next));
      }
      Save(a, b.(next := next, size := size));
      cells := ds;
    }

    /** kmalloc (kernel/heap.c:55-69): first fit; 0 is NULL */
    method Kmalloc(bytes: nat) returns (ptr: nat, ghost k: nat)
      requires Valid() && bytes < 0x1_0000_0000
      modifies this
      ensures Valid() && SamePayloads(old(mem), mem, old(cells))
      ensures ptr == 0 <==> bytes == 0 || forall i :: 0 <= i < |old(cells)| ==> !Fits(old(cells)[i], Align8(bytes))
      ensures ptr == 0 ==> mem == old(mem) && cells == old(cells)
      ensures ptr != 0 ==> k < |old(cells)| && Fits(old(cells)[k], Align8(bytes)) && forall i :: 0 <= i < k ==>
                !Fits(old(cells)[i], Align8(bytes))
      ensures ptr != 0 ==> cells == Taken(old(cells), k, Align8(bytes)) && ptr == base + Off(old(cells), k) + HEADER
      ensures ptr != 0 ==> k < |cells| && forall i: nat :: i < |cells| && i != k ==> Disjoint(cells, i, k)
    {
      hide Off, Store, Node, HeaderAt, Decode, U32, Align8, NoFreePair;
      k := 0;
      SpareSelf(mem, base, cells);
      if bytes == 0 {
        return 0, 0;
      }
      var size := Align8(bytes);
      var b := base;
      OffZero(cells);
      while b != 0
        invariant k <= |cells| && b == Addr(base, cells, k) && mem == old(mem) && cells == old(cells)
        invariant forall i :: 0 <= i < k ==> !Fits(cells[i], size)
        decreases |cells| - k
      {
        LaidAt(mem, base, cells, k);
        var h := Load(b);
        if U32(mem, b - base) == MAGIC && h.free && h.size >= size {
          TakenSane(cells, k, size);
          TakenIs(cells, k, size);
          SplitBlock(b, size, k);
          ghost var m := mem;
          Mark(b, k, false, old(cells));
          SpareBoth(old(mem), m, mem, old(cells));
          BlocksApart(cells, k);
          return b + HEADER, k;
        }
        NodeNext(base, cells, k);
        b := h.next;
        k := k + 1;
      }
      return 0, 0;
    }

    /** Setting the free mark of block k; live payloads of any list with a block there are spared. */
    method Mark(a: nat, ghost k: nat, free: bool, ghost other: Cells)
      requires Laid(mem, base, cells) && k < |cells| && a == base + Off(cells, k)
      requires Fine(base, other) && k < |other| && Off(other, k) == Off(cells, k)
      modifies this
      ensures Laid(mem, base, cells) && cells == old(cells)[k := old(cells)[k].(free := free)]
      ensures SamePayloads(old(mem), mem, other)
    {
      hide Off, Store, Node, HeaderAt, Decode, U32;
      LaidAt(mem, base, cells, k);
      MarkStep(mem, base, cells, k, free);
      var h := Load(a);
      StoreSpares(mem, base, other, k, Off(other, k), h.(free := free));
      Save(a, h.(free := free));
      cells := cells[k := cells[k].(free := free)];
    }

    /** The first half of coalesce (kernel/heap.c:83-89) */
    method Swallow(a: nat, ghost k: nat)
      requires Laid(mem, base, cells) && k < |cells| && a == base + Off(cells, k) && cells[k].free
      modifies this
      ensures Laid(mem, base, cells) && cells == JoinNext(old(cells), k) && SamePayloads(old(mem), mem, old(cells))
    {
      hide Off, Store, Node, HeaderAt, Decode, U32, JoinMem, JoinNext;
      ghost var ds := cells;
      LaidAt(mem, base, ds, k);
      NodeNext(base, ds, k);
      SpareSelf(mem, base, ds);
      var b := Load(a);
      if b.next == 0 {
        JoinNothing(ds, k);
        return;
      }
      LaidAt(mem, base, ds, k + 1);
      var n := Load(b.next);
      if !n.free {
        JoinNothing(ds, k);
        return;
      }
      ghost var cs := JoinNext(ds, k);
      JoinHeaders(base, ds, k);
      JoinStep(mem, base, cs, ds, k);
      JoinSpares(mem, base, cs, ds, k);
      JoinMemIs(mem, base, cs, k);
      b := b.(size := b.size + HEADER + n.size, next := n.next);
      Save(a, b);
      if b.next != 0 {
        LaidAt(old(mem), base, ds, k + 2);
        Apart(ds, k + 2, k);
        HeaderKept(old(mem), base, ds, Off(ds, k), b, k + 2);
        HeaderIs(mem, Off(ds, k + 2), Node(base, ds, k + 2));
        var follower := Load(b.next);
        Save(b.next, follower.(prev := a));
      }
      cells := cs;
    }

    /** coalesce (kernel/heap.c:81-93) */
    method CoalesceAt(a: nat, ghost k: nat)
      requires Laid(mem, base, cells) && k < |cells| && a == base + Off(cells, k) && cells[k].free
      modifies this
      ensures Laid(mem, base, cells) && cells == Coalesce(old(cells), k) && SamePayloads(old(mem), mem, old(cells))
      decreases k
    {
      hide Off, Store, Node, HeaderAt, Decode, U32, JoinNext, SamePayloads;
      Swallow(a, k);
      ghost var m, cs := mem, cells;
      SwallowedAt(old(cells), k);
      LaidAt(mem, base, cells, k);
      NodeNext(base, cells, k);
      var b := Load(a);
      if b.prev != 0 {
        LaidAt(mem, base, cells, k - 1);
        var p := Load(b.prev);
        if p.free {
          CoalesceAt(b.prev, k - 1);
          SpareJoined(m, mem, base, old(cells), k);
          SpareBoth(old(mem), m, mem, old(cells));
        }
      }
    }

    /** kfree (kernel/heap.c:95-106) of NULL or of the live block k */
    method Kfree(ptr: nat, ghost k: nat)
      requires Valid() && (ptr != 0 ==> k < |cells| && !cells[k].free && ptr == base + Off(cells, k) + HEADER)
      modifies this
      ensures Valid()
      ensures ptr == 0 ==> mem == old(mem) && cells == old(cells)
      ensures ptr != 0 ==> cells == Released(old(cells), k) && SamePayloads(old(mem), mem, Marked(old(cells), k))
    {
      hide Off, Store, Node, HeaderAt, Decode, U32, SamePayloads, Coalesce, NoFreePair;
      if ptr == 0 {
        return;
      }
      var a := ptr - HEADER;
      LaidAt(mem, base, cells, k);
      if U32(mem, a - base) != MAGIC {
        return;
      }
      ReleasedSane(cells, k);
      ghost var cs := Marked(cells, k);
      MarkOffsets(cells, k, true, k);
      MarkOffsets(cells, k, true, |cells|);
      Mark(a, k, true, cs);
      ghost var m := mem;
      CoalesceAt(a, k);
      SpareBoth(old(mem), m, mem, cs);
    }

    /** A task writing into memory it was given. */
    method Poke(at: nat, value: byte, ghost k: nat)
      requires Valid() && k < |cells| && !cells[k].free
      requires base + Off(cells, k) + HEADER <= at < base + Off(cells, k) + HEADER + cells[k].size
      modifies this`mem
      ensures Valid() && at - base < |mem| && mem == old(mem)[at - base := value]
    {
      hide Off, Node, HeaderAt;
      NodeStorable(base, cells, k);
      PokeLaid(mem, base, cells, k, at - base, value);
      mem := mem[at - base := value];
    }

    /** heap_free_bytes (kernel/heap.c:130-139) */
    method FreeTotal() returns (total: nat)
      requires Valid()
      ensures total == FreeBytes(cells) && total + LiveBytes(cells) + HEADER * |cells| == HEAP_SIZE
    {
      hide Off, Node, HeaderAt, Decode, U32;
      total := 0;
      ghost var k := 0;
      var b := base;
      OffZero(cells);
      while b != 0
        invariant k <= |cells| && b == Addr(base, cells, k) && total == FreeBytes(cells[..k])
        decreases |cells| - k
      {
        LaidAt(mem, base, cells, k);
        NodeNext(base, cells, k);
        var h := Load(b);
        assert cells[..k + 1][..k] == cells[..k];
        if h.free {
          total := total + h.size;
        }
        b := h.next;
        k := k + 1;
      }
      assert cells[..k] == cells;
      BytesConserved(cells);
    }

    /**
     * krealloc (kernel/heap.c:108-128) of NULL or of the live block k.  When the
     * block has to move, its old contents lead the new block.  Above 0xFFFFFFF8 bytes the
     * request rounds to 0, and the block taken can be smaller than the old one: then the copy
     * would leave it, and the model stops before the copy with `overran`.
     */
    method Krealloc(ptr: nat, bytes: nat, ghost k: nat) returns (next: nat, overran: bool, ghost j: nat)
      requires Valid() && bytes < 0x1_0000_0000
      requires ptr != 0 ==> k < |cells| && !cells[k].free && ptr == base + Off(cells, k) + HEADER
      modifies this
      ensures Valid() && (overran ==> ptr != 0 && bytes > 0xFFFF_FFF8)
      ensures ptr == 0 ==>
                (next == 0 <==> bytes == 0 || forall i :: 0 <= i < |old(cells)| ==> !Fits(old(cells)[i], Align8(bytes)))
      ensures ptr == 0 && next == 0 ==> mem == old(mem) && cells == old(cells)
      ensures ptr == 0 && next != 0 ==> j < |old(cells)| && Fits(old(cells)[j], Align8(bytes)) && forall i ::
                0 <= i < j ==> !Fits(old(cells)[i], Align8(bytes))
      ensures ptr == 0 && next != 0 ==>
                cells == Taken(old(cells), j, Align8(bytes)) && next == base + Off(old(cells), j) + HEADER
      ensures ptr == 0 ==> SamePayloads(old(mem), mem, old(cells))
      ensures ptr != 0 && bytes == 0 ==>
                next == 0 && cells == Released(old(cells), k) && SamePayloads(old(mem), mem, Marked(old(cells), k))
      ensures ptr != 0 && bytes != 0 && next == 0 ==> mem == old(mem) && cells == old(cells)
      ensures ptr != 0 && 0 < bytes <= old(cells)[k].size ==> next == ptr && mem == old(mem) && cells == old(cells)
      ensures ptr != 0 && bytes > old(cells)[k].size ==>
                (next == 0 <==> forall i :: 0 <= i < |old(cells)| ==> !Fits(old(cells)[i], Align8(bytes)))
      ensures ptr != 0 && bytes > old(cells)[k].size && next != 0 ==>
                FirstFit(old(cells), j, Align8(bytes))
                  && (overran <==> !Roomy(old(cells), j, Align8(bytes), old(cells)[k].size))
      ensures overran ==> next != 0 && bytes > old(cells)[k].size && cells == Taken(old(cells), j, Align8(bytes))
                          && SamePayloads(old(mem), mem, old(cells))
      ensures ptr != 0 && bytes > old(cells)[k].size && next != 0 && !overran ==>
                Grown(old(mem), old(cells), mem, cells, base, k, j, ptr, next, Align8(bytes))
    {
      hide Off, Node, HeaderAt, Decode, U32, Align8, SamePayloads, Laid, Sane, Taken, Released, Grown, Fits, FirstFit,
           Roomy;
      j, overran := 0, false;
      ghost var cs, m0 := cells, mem;
      if ptr == 0 {
        next, j := Kmalloc(bytes);
        return;
      }
      if bytes == 0 {
        Kfree(ptr, k);
        return 0, false, 0;
      }
      LaidFine(mem, base, cells);
      NodeStorable(base, cells, k);
      LaidAt(mem, base, cells, k);
      var b := Load(ptr - HEADER);
      if b.size >= bytes {
        return ptr, false, 0;
      }
      next, overran, j := Move(ptr, bytes, k, b.size);
    }

    /** kernel/heap.c:121-127: a larger block, the contents, and the old block back. */
    method Move(ptr: nat, bytes: nat, ghost k: nat, count: nat) returns (next: nat, overran: bool, ghost j: nat)
      requires Valid() && 0 < bytes < 0x1_0000_0000 && k < |cells| && !cells[k].free
               && ptr == base + Off(cells, k) + HEADER
      requires count == cells[k].size && bytes > count
      modifies this
      ensures Valid() && (overran ==> bytes > 0xFFFF_FFF8)
      ensures next == 0 ==> mem == old(mem) && cells == old(cells) && !overran
      ensures next == 0 <==> forall i :: 0 <= i < |old(cells)| ==> !Fits(old(cells)[i], Align8(bytes))
      ensures next != 0 ==>
                FirstFit(old(cells), j, Align8(bytes)) && (overran <==> !Roomy(old(cells), j, Align8(bytes), count))
      ensures overran ==> cells == Taken(old(cells), j, Align8(bytes)) && SamePayloads(old(mem), mem, old(cells))
      ensures next != 0 && !overran ==> Grown(old(mem), old(cells), mem, cells, base, k, j, ptr, next, Align8(bytes))
    {
      hide Off, Align8, SamePayloads, Laid, Sane, Taken, Released, Grown, Fits, Put, Node, HeaderAt, Decode, U32,
           Carved;
      ghost var cs, m0 := cells, mem;
      LaidFine(mem, base, cells);
      next, j := Kmalloc(bytes);
      overran := false;
      if next == 0 {
        return;
      }
      ghost var m1, ds := mem, cells;
      TakenSize(cs, j, Align8(bytes));
      LaidAt(mem, base, cells, j);
      TakenPlace(cs, j, Align8(bytes));
      var taken := Load(next - HEADER);
      if taken.size < count {
        RoundedRoom(cs, j, bytes, count);
        return next, true, j;
      }
      MoveRoom(cs, k, j, bytes);
      MoveStep(m0, m1, base, cs, k, j, Align8(bytes), count);
      mem := Put(mem, next - base, mem[ptr - base..ptr - base + count]);
      ghost var m2, s := mem, Shifted(cs, j, Align8(bytes), k);
      Kfree(ptr, s);
      MoveEnds(m0, m1, m2, mem, base, cs, k, j, Align8(bytes), count);
      GrownIs(m0, cs, mem, base, k, j, ptr, next, Align8(bytes));
    }
  }

  /** Block j is the first free one that is large enough. */
  ghost predicate FirstFit(cs: Cells, j: nat, size: nat) {
    j < |cs| && Fits(cs[j], size) && forall i :: 0 <= i < j ==> !Fits(cs[i], size)
  }

  /** The block taken from block j holds n bytes. */
  ghost predicate Roomy(cs: Cells, j: nat, size: nat, n: nat) {
    j < |cs| && Fits(cs[j], size) && n <= Carved(cs[j], size)[0].size
  }

  /** A copy of n bytes stays inside the block taken, before the next block or the end, exactly if it is roomy. */
  lemma CopyInside(cs: Cells, j: nat, size: nat, n: nat)
    requires j < |cs| && Fits(cs[j], size)
    ensures j < |Taken(cs, j, size)|
    ensures Off(cs, j) + HEADER + n <= Off(Taken(cs, j, size), j + 1) <==> Roomy(cs, j, size, n)
  {
    hide Carved;
    TakenSize(cs, j, size);
    TakenPlace(cs, j, size);
  }

  lemma TakenPlace(cs: Cells, j: nat, size: nat)
    requires j < |cs| && Fits(cs[j], size)
    ensures Off(Taken(cs, j, size), j) == Off(cs, j)
  {
    hide Off, Carved;
    assert Taken(cs, j, size)[..j] == cs[..j];
    OffPrefix(Taken(cs, j, size), cs, j);
  }

  /** Only a request that rounds to 0 can be given a smaller block than the one it is to replace. */
  lemma RoundedRoom(cs: Cells, j: nat, bytes: nat, n: nat)
    requires j < |cs| && bytes < 0x1_0000_0000 && Fits(cs[j], Align8(bytes)) && n < bytes
             && !Roomy(cs, j, Align8(bytes), n)
    ensures bytes > 0xFFFF_FFF8
  {
    hide Align8;
    AlignCovers(bytes);
  }

  /** Such a request: 8 live bytes, the rest free; the block taken has no room at all. */
  lemma ReallocOverruns() returns (cs: Cells, bytes: nat)
    ensures Sane(cs) && |cs| == 2 && !cs[0].free && cs[0].size == 8 && bytes < 0x1_0000_0000
    ensures FirstFit(cs, 1, Align8(bytes)) && !Roomy(cs, 1, Align8(bytes), cs[0].size)
  {
    cs, bytes := [Cell(8, false), Cell(HEAP_SIZE - 2 * HEADER - 8, true)], 0xFFFF_FFFF;
    assert Off(cs, 1) == HEADER + 8;
    assert Off(cs, 2) == HEAP_SIZE;
    assert Align8(bytes) == 0;
  }

  lemma LaidAt(mem: seq<byte>, base: nat, cs: Cells, i: nat)
    requires Laid(mem, base, cs) && i < |cs|
    ensures HeaderAt(mem, Off(cs, i), Node(base, cs, i)) && Off(cs, i) + HEADER <= |mem|
    ensures Decode(mem, Off(cs, i)) == Node(base, cs, i) && U32(mem, Off(cs, i)) == MAGIC
    ensures Node(base, cs, i).size == cs[i].size && Node(base, cs, i).free == cs[i].free
  {
    hide Off, U32;
    assert HeaderAt(mem, Off(cs, i), Node(base, cs, i));
  }

  lemma HeaderIs(mem: seq<byte>, o: nat, h: Header)
    requires HeaderAt(mem, o, h)
    ensures o + HEADER <= |mem| && Decode(mem, o) == h
  {
  }

  lemma SplitMemIs(mem: seq<byte>, base: nat, ds: Cells, k: nat)
    requires |mem| == HEAP_SIZE && k + 1 < |ds| && Fine(base, ds)
    ensures Storable(Node(base, ds, k)) && Storable(Node(base, ds, k + 1))
            && (k + 2 < |ds| ==> Storable(Node(base, ds, k + 2)))
    ensures Off(ds, k) + HEADER <= HEAP_SIZE && Off(ds, k + 1) + HEADER <= HEAP_SIZE
            && (k + 2 < |ds| ==> Off(ds, k + 2) + HEADER <= HEAP_SIZE)
    ensures var m1 := Store(mem, Off(ds, k + 1), Node(base, ds, k + 1));
            var m2 := if k + 2 < |ds| then Store(m1, Off(ds, k + 2), Node(base, ds, k + 2)) else m1;
            SplitMem(mem, base, ds, k) == Store(m2, Off(ds, k), Node(base, ds, k))
  {
    hide Off, Store, Node;
    NodeStorable(base, ds, k);
    NodeStorable(base, ds, k + 1);
    if k + 2 < |ds| {
      NodeStorable(base, ds, k + 2);
    }
  }

  /** Splitting a free block disturbs no live payload. */
  lemma SplitSpares(mem: seq<byte>, base: nat, cs: Cells, ds: Cells, k: nat)
    requires |mem| == HEAP_SIZE && Fine(base, cs) && Fine(base, ds) && SplitAt(cs, ds, k) && cs[k].free && k + 1 < |ds|
    ensures SamePayloads(mem, SplitMem(mem, base, ds, k), cs)
  {
    hide Off, Store, Node, SplitMem, SamePayloads;
    SplitMemIs(mem, base, ds, k);
    SplitOffsets(cs, ds, k, k);
    NodeStorable(base, ds, k + 1);
    NodeStorable(base, cs, k);
    StoreSpares(mem, base, cs, k, Off(ds, k + 1), Node(base, ds, k + 1));
    var m1 := Store(mem, Off(ds, k + 1), Node(base, ds, k + 1));
    var m2 := m1;
    SpareSelf(m1, base, cs);
    if k + 2 < |ds| {
      SplitOffsets(cs, ds, k, k + 1);
      StoreSpares(m1, base, cs, k + 1, Off(ds, k + 2), Node(base, ds, k + 2));
      m2 := Store(m1, Off(ds, k + 2), Node(base, ds, k + 2));
    }
    SpareBoth(mem, m1, m2, cs);
    StoreSpares(m2, base, cs, k, Off(ds, k), Node(base, ds, k));
    SpareBoth(mem, m2, Store(m2, Off(ds, k), Node(base, ds, k)), cs);
  }

  lemma OffZero(cs: Cells)
    ensures Off(cs, 0) == 0
  {
  }

  lemma NodeNext(base: nat, cs: Cells, k: nat)
    requires k < |cs|
    ensures Node(base, cs, k).next == Addr(base, cs, k + 1) && Node(base, cs, k).prev == Addr(base, cs, k - 1)
  {
  }

  /** Splitting and then marking is what Taken says. */
  lemma TakenIs(cs: Cells, k: nat, size: nat)
    requires k < |cs| && Fits(cs[k], size)
    ensures var ds := if cs[k].size < size + HEADER + MIN_REST then cs else SplitCells(cs, k, size);
            k < |ds| && Off(ds, k) == Off(cs, k) && ds[k := ds[k].(free := false)] == Taken(cs, k, size)
  {
    hide Off;
    var ds := if cs[k].size < size + HEADER + MIN_REST then cs else SplitCells(cs, k, size);
    assert ds[..k] == cs[..k];
    OffPrefix(ds, cs, k);
  }

  lemma JoinNothing(cs: Cells, k: nat)
    requires k < |cs| && (k + 1 < |cs| ==> !cs[k + 1].free)
    ensures JoinNext(cs, k) == cs
  {
  }

  lemma JoinMemIs(mem: seq<byte>, base: nat, cs: Cells, k: nat)
    requires |mem| == HEAP_SIZE && k < |cs| && Fine(base, cs)
    ensures Storable(Node(base, cs, k)) && Off(cs, k) + HEADER <= HEAP_SIZE
    ensures k + 1 < |cs| ==> Storable(Node(base, cs, k + 1)) && Off(cs, k + 1) + HEADER <= HEAP_SIZE
    ensures var m1 := Store(mem, Off(cs, k), Node(base, cs, k));
            JoinMem(mem, base, cs, k) == if k + 1 < |cs| then Store(m1, Off(cs, k + 1), Node(base, cs, k + 1)) else m1
  {
    hide Off, Store, Node;
    NodeStorable(base, cs, k);
    if k + 1 < |cs| {
      NodeStorable(base, cs, k + 1);
    }
  }

  /** Merging two free blocks disturbs no live payload. */
  lemma JoinSpares(mem: seq<byte>, base: nat, cs: Cells, ds: Cells, k: nat)
    requires |mem| == HEAP_SIZE && Fine(base, cs) && Fine(base, ds) && SplitAt(cs, ds, k)
    ensures SamePayloads(mem, JoinMem(mem, base, cs, k), ds)
  {
    hide Off, Store, Node, JoinMem, SamePayloads;
    JoinMemIs(mem, base, cs, k);
    SplitOffsets(cs, ds, k, k);
    StoreSpares(mem, base, ds, k, Off(cs, k), Node(base, cs, k));
    var m1 := Store(mem, Off(cs, k), Node(base, cs, k));
    if k + 1 < |cs| {
      SplitOffsets(cs, ds, k, k + 1);
      StoreSpares(m1, base, ds, k + 2, Off(cs, k + 1), Node(base, cs, k + 1));
      SpareBoth(mem, m1, Store(m1, Off(cs, k + 1), Node(base, cs, k + 1)), ds);
    }
  }

  /** After the merge block k is still where it was, and free. */
  lemma SwallowedAt(ds: Cells, k: nat)
    requires k < |ds| && ds[k].free
    ensures var cs := JoinNext(ds, k); k < |cs| && Off(cs, k) == Off(ds, k) && cs[k].free
  {
    hide Off;
    var cs := JoinNext(ds, k);
    assert cs[..k] == ds[..k];
    OffPrefix(cs, ds, k);
  }

  /** Live payloads of a list are live payloads of the list with free neighbours merged. */
  lemma SpareJoined(mem: seq<byte>, m: seq<byte>, base: nat, ds: Cells, k: nat)
    requires k < |ds| && ds[k].free && Fine(base, ds) && SamePayloads(mem, m, JoinNext(ds, k))
    ensures SamePayloads(mem, m, ds)
  {
    hide Off;
    var cs := JoinNext(ds, k);
    if cs != ds {
      JoinHeaders(base, ds, k);
      forall i: nat | i < |ds| && !ds[i].free ensures SamePayload(mem, m, ds, i) {
        if i < k {
          SplitOffsets(cs, ds, k, i);
          assert cs[..k][i] == ds[..k][i];
          assert SamePayload(mem, m, cs, i);
        } else {
          SplitOffsets(cs, ds, k, i - 1);
          assert cs[k + 1..][i - k - 2] == ds[k + 2..][i - k - 2];
          assert SamePayload(mem, m, cs, i - 1);
        }
      }
    }
  }

  lemma PokeLaid(mem: seq<byte>, base: nat, cs: Cells, k: nat, at: nat, value: byte)
    requires Laid(mem, base, cs) && k < |cs| && Off(cs, k) + HEADER <= at < Off(cs, k) + HEADER + cs[k].size
             && at < |mem|
    ensures Laid(mem[at := value], base, cs)
  {
    hide Off, Node, HeaderAt;
    var m := mem[at := value];
    forall i: nat | i < |cs| ensures HeaderAt(m, Off(cs, i), Node(base, cs, i)) {
      NodeStorable(base, cs, i);
      if i < k {
        OffBefore(cs, i, k);
      } else if k < i {
        OffBefore(cs, k, i);
      }
      assert HeaderAt(mem, Off(cs, i), Node(base, cs, i));
      assert m[Off(cs, i)..Off(cs, i) + HEADER] == mem[Off(cs, i)..Off(cs, i) + HEADER];
      SameHeader(mem, Off(cs, i), m, Off(cs, i), Node(base, cs, i));
    }
  }

  // ---- moving a block ----

  /** The index block i gets when block j is taken. */
  function Shifted(cs: Cells, j: nat, size: nat, i: nat): nat
    requires j < |cs| && Fits(cs[j], size)
  {
    if i < j then i else i + |Carved(cs[j], size)| - 1
  }

  /** Taking block j leaves every other block in place. */
  lemma TakenShift(cs: Cells, j: nat, size: nat, i: nat)
    requires j < |cs| && Fits(cs[j], size) && i < |cs| && i != j
    ensures var ds, s := Taken(cs, j, size), Shifted(cs, j, size, i);
            s < |ds| && s != j && ds[s] == cs[i] && Off(ds, s) == Off(cs, i)
    ensures Off(Taken(cs, j, size), j) == Off(cs, j)
  {
    hide Off;
    var ds, c := Taken(cs, j, size), Carved(cs[j], size);
    var a, d := cs[..j], cs[j + 1..];
    assert cs == a + [cs[j]] + d && ds == a + c + d;
    assert ds[..j] == cs[..j];
    OffPrefix(ds, cs, j);
    if i < j {
      assert ds[..i] == cs[..i];
      OffPrefix(ds, cs, i);
    } else {
      CarvedExtent(a, cs[j], size);
      OffAfter(a, [cs[j]], c, d, i - j - 1);
    }
  }

  /** The outcome of a move: contents first, everybody else untouched. */
  ghost predicate Grown(mem: seq<byte>, cs: Cells, m: seq<byte>, es: Cells, base: nat, k: nat, j: nat, ptr: nat,
      next: nat, size: nat) {
    && k < |cs| && j < |cs| && Fits(cs[j], size) && es == Released(Taken(cs, j, size), Shifted(cs, j, size, k))
    && ptr == base + Off(cs, k) + HEADER && next == base + Off(cs, j) + HEADER
    && Off(cs, k) + HEADER + cs[k].size <= |mem| && Off(cs, j) + HEADER + cs[k].size <= |m|
    && m[next - base..next - base + cs[k].size] == mem[ptr - base..ptr - base + cs[k].size]
    && SamePayloads(mem, m, Marked(cs, k))
  }

  lemma LaidFine(mem: seq<byte>, base: nat, cs: Cells)
    requires Laid(mem, base, cs)
    ensures Fine(base, cs) && |mem| == HEAP_SIZE
  {
    hide Off, Node, HeaderAt;
  }

  lemma MoveRoom(cs: Cells, k: nat, j: nat, bytes: nat)
    requires k < |cs| && !cs[k].free && j < |cs| && bytes < 0x1_0000_0000 && Fits(cs[j], Align8(bytes))
    ensures j != k && Shifted(cs, j, Align8(bytes), k) < |Taken(cs, j, Align8(bytes))|
  {
    hide Off;
    TakenShift(cs, j, Align8(bytes), k);
  }

  /** Copying inside live block j of a list disturbs no header and no other block. */
  lemma PutLaid(mem: seq<byte>, base: nat, cs: Cells, j: nat, data: seq<byte>)
    requires Laid(mem, base, cs) && j < |cs| && |data| <= cs[j].size
    ensures var o := Off(cs, j) + HEADER;
            && o + |data| <= |mem| && Laid(Put(mem, o, data), base, cs)
            && forall i: nat :: i < |cs| && i != j ==> SamePayload(mem, Put(mem, o, data), cs, i)
  {
    hide Off, Node, HeaderAt, Put;
    NodeStorable(base, cs, j);
    var o := Off(cs, j) + HEADER;
    var m := Put(mem, o, data);
    forall i: nat | i < |cs|
        ensures HeaderAt(m, Off(cs, i), Node(base, cs, i)) && (i != j ==> SamePayload(mem, m, cs, i)) {
      NodeStorable(base, cs, i);
      if i < j {
        OffBefore(cs, i, j);
      } else if j < i {
        OffBefore(cs, j, i);
      }
      assert HeaderAt(mem, Off(cs, i), Node(base, cs, i));
      PutOutside(mem, o, data, Off(cs, i), Off(cs, i) + HEADER);
      SameHeader(mem, Off(cs, i), m, Off(cs, i), Node(base, cs, i));
      if i != j {
        PutOutside(mem, o, data, Off(cs, i) + HEADER, Off(cs, i) + HEADER + cs[i].size);
      }
    }
  }

  lemma MoveStep(m0: seq<byte>, m1: seq<byte>, base: nat, cs: Cells, k: nat, j: nat, size: nat, n: nat)
    requires k < |cs| && j < |cs| && j != k && !cs[k].free && n == cs[k].size && Roomy(cs, j, size, n)
    requires Fine(base, cs) && |m0| == HEAP_SIZE && Laid(m1, base, Taken(cs, j, size)) && SamePayloads(m0, m1, cs)
    ensures var o, p, ds, s := Off(cs, j) + HEADER, Off(cs, k) + HEADER, Taken(cs, j, size), Shifted(cs, j, size, k);
            && p + n <= |m1| && o + n <= |m1| && Laid(Put(m1, o, m1[p..p + n]), base, ds)
            && s < |ds| && Off(ds, s) == Off(cs, k) && !ds[s].free
            && m1[p..p + n] == m0[p..p + n]
  {
    hide Off, Node, HeaderAt, Put, Laid, Fine, Carved;
    LaidFine(m1, base, Taken(cs, j, size));
    NodeStorable(base, cs, k);
    NodeStorable(base, cs, j);
    TakenShift(cs, j, size, k);
    TakenSize(cs, j, size);
    var p := Off(cs, k) + HEADER;
    PutLaid(m1, base, Taken(cs, j, size), j, m1[p..p + n]);
    assert SamePayload(m0, m1, cs, k);
  }

  lemma TakenSize(cs: Cells, j: nat, size: nat)
    requires j < |cs| && Fits(cs[j], size)
    ensures j < |Taken(cs, j, size)| && Taken(cs, j, size)[j] == Carved(cs[j], size)[0] && !Taken(cs, j, size)[j].free
  {
  }

  lemma MoveEnds(m0: seq<byte>, m1: seq<byte>, m2: seq<byte>, m3: seq<byte>, base: nat, cs: Cells, k: nat, j: nat,
      size: nat, n: nat)
    requires k < |cs| && j < |cs| && j != k && !cs[k].free && n == cs[k].size && Roomy(cs, j, size, n)
    requires Fine(base, cs) && |m0| == HEAP_SIZE && Laid(m1, base, Taken(cs, j, size)) && SamePayloads(m0, m1, cs)
    requires var o, p := Off(cs, j) + HEADER, Off(cs, k) + HEADER;
             p + n <= |m1| && o + n <= |m1| && m2 == Put(m1, o, m1[p..p + n])
    requires Shifted(cs, j, size, k) < |Taken(cs, j, size)|
             && SamePayloads(m2, m3, Marked(Taken(cs, j, size), Shifted(cs, j, size, k)))
    ensures SamePayloads(m0, m3, Marked(cs, k))
    ensures var o, p := Off(cs, j) + HEADER, Off(cs, k) + HEADER;
            o + n <= |m3| && m3[o..o + n] == m0[p..p + n] && p + n <= |m0|
  {
    hide Off, Node, HeaderAt, Put, Laid, Fine, Carved, Taken, Shifted;
    var ds, s := Taken(cs, j, size), Shifted(cs, j, size, k);
    MoveStep(m0, m1, base, cs, k, j, size, n);
    TakenShift(cs, j, size, k);
    TakenSize(cs, j, size);
    var o, p := Off(cs, j) + HEADER, Off(cs, k) + HEADER;
    PutLaid(m1, base, ds, j, m1[p..p + n]);
    MarkOffsets(ds, s, true, j);
    assert SamePayload(m2, m3, Marked(ds, s), j);
    PutSlice(m1, o, m1[p..p + n]);
    LeadingBytes(m2, m3, o, n, ds[j].size);
    forall i: nat | i < |cs| && !Marked(cs, k)[i].free ensures SamePayload(m0, m3, Marked(cs, k), i) {
      OthersKept(m0, m1, m2, m3, base, cs, k, j, size, i);
    }
  }

  lemma LeadingBytes(a: seq<byte>, b: seq<byte>, o: nat, n: nat, size: nat)
    requires o + size <= |a| && o + size <= |b| && b[o..o + size] == a[o..o + size] && n <= size
    ensures b[o..o + n] == a[o..o + n]
  {
    assert b[o..o + n] == b[o..o + size][..n];
    assert a[o..o + n] == a[o..o + size][..n];
  }

  lemma OthersKept(m0: seq<byte>, m1: seq<byte>, m2: seq<byte>, m3: seq<byte>, base: nat, cs: Cells, k: nat, j: nat,
      size: nat, i: nat)
    requires k < |cs| && j < |cs| && j != k && Fits(cs[j], size) && i < |cs| && i != k && !cs[i].free
             && SamePayload(m0, m1, cs, i)
    requires forall l: nat :: l < |Taken(cs, j, size)| && l != j ==> SamePayload(m1, m2, Taken(cs, j, size), l)
    requires Shifted(cs, j, size, k) < |Taken(cs, j, size)|
             && SamePayloads(m2, m3, Marked(Taken(cs, j, size), Shifted(cs, j, size, k)))
    ensures SamePayload(m0, m3, Marked(cs, k), i)
  {
    hide Off, Carved, Taken;
    var ds, s, l := Taken(cs, j, size), Shifted(cs, j, size, k), Shifted(cs, j, size, i);
    TakenShift(cs, j, size, i);
    TakenShift(cs, j, size, k);
    assert l != s by { ShiftedApart(cs, j, size, i, k); }
    assert SamePayload(m1, m2, ds, l);
    MarkOffsets(ds, s, true, l);
    assert SamePayload(m2, m3, Marked(ds, s), l);
    MarkOffsets(cs, k, true, i);
  }

  lemma ShiftedApart(cs: Cells, j: nat, size: nat, a: nat, b: nat)
    requires j < |cs| && Fits(cs[j], size) && a != b && a != j && b != j
    ensures Shifted(cs, j, size, a) != Shifted(cs, j, size, b)
  {
  }

  lemma GrownIs(mem: seq<byte>, cs: Cells, m: seq<byte>, base: nat, k: nat, j: nat, ptr: nat, next: nat, size: nat)
    requires k < |cs| && j < |cs| && Fits(cs[j], size) && Shifted(cs, j, size, k) < |Taken(cs, j, size)|
    requires ptr == base + Off(cs, k) + HEADER && next == base + Off(cs, j) + HEADER
    requires SamePayloads(mem, m, Marked(cs, k))
    requires var o, p, n := Off(cs, j) + HEADER, Off(cs, k) + HEADER, cs[k].size;
             o + n <= |m| && p + n <= |mem| && m[o..o + n] == mem[p..p + n]
    ensures Grown(mem, cs, m, Released(Taken(cs, j, size), Shifted(cs, j, size, k)), base, k, j, ptr, next, size)
  {
    hide Off, SamePayloads, Taken, Shifted, Released;
  }
}
