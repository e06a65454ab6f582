/**
 * The kernel heap as a list of blocks (kernel/heap.c): which sizes and free marks
 * follow each other through the 8 MiB region, and what allocation and freeing do
 * to that list.
 */
module HeapLayout {

  /** sizeof(heap_block_t) on the 32-bit target */
  const HEADER: nat := 20
  const HEAP_SIZE: nat := 0x80_0000
  const MIN_REST: nat := 16

  datatype Cell = Cell(size: nat, free: bool)

  type Cells = seq<Cell>

  /** Where block i starts. */
  function Off(cs: Cells, i: nat): nat
    requires i <= |cs|
  {
    if i == 0 then 0 else Off(cs, i - 1) + HEADER + cs[i - 1].size
  }

  ghost predicate NoFreePair(cs: Cells) {
    forall i, j :: 0 <= i < j < |cs| && j == i + 1 ==> !(cs[i].free && cs[j].free)
  }

  /** The blocks tile the region and no two neighbours are free. */
  ghost predicate Sane(cs: Cells) {
    cs != [] && Off(cs, |cs|) == HEAP_SIZE && NoFreePair(cs)
  }

  // ---- offsets ----

  lemma {:induction false} OffBefore(cs: Cells, i: nat, j: nat)
    requires i < j <= |cs|
    ensures Off(cs, i) + HEADER + cs[i].size <= Off(cs, j)
    decreases j
  {
    if i + 1 < j {
      OffBefore(cs, i, j - 1);
    }
  }

  /** Block i, its header included, and block j share no byte. */
  ghost predicate Disjoint(cs: Cells, i: nat, j: nat)
    requires i < |cs| && j < |cs|
  {
    Off(cs, i) + HEADER + cs[i].size <= Off(cs, j) || Off(cs, j) + HEADER + cs[j].size <= Off(cs, i)
  }

  /** Distinct blocks never overlap; in particular live payloads do not. */
  lemma BlocksApart(cs: Cells, k: nat)
    requires k < |cs|
    ensures forall i: nat :: i < |cs| && i != k ==> Disjoint(cs, i, k)
  {
    hide Off;
    forall i: nat | i < |cs| && i != k ensures Disjoint(cs, i, k) {
      if i < k {
        OffBefore(cs, i, k);
      } else {
        OffBefore(cs, k, i);
      }
    }
  }

  lemma {:induction false} OffPrefix(cs: Cells, ds: Cells, i: nat)
    requires i <= |cs| && i <= |ds| && cs[..i] == ds[..i]
    ensures Off(cs, i) == Off(ds, i)
  {
    if i > 0 {
      assert cs[..i - 1] == cs[..i][..i - 1] && ds[..i - 1] == ds[..i][..i - 1];
      OffPrefix(cs, ds, i - 1);
      assert cs[..i][i - 1] == ds[..i][i - 1];
    }
  }

  /** Replacing a stretch by one of equal extent moves nothing behind it. */
  lemma {:induction false} OffAfter(a: Cells, b: Cells, c: Cells, d: Cells, i: nat)
    requires Off(a + b, |a + b|) == Off(a + c, |a + c|) && i <= |d|
    ensures Off(a + b + d, |a + b| + i) == Off(a + c + d, |a + c| + i)
  {
    if i == 0 {
      assert (a + b + d)[..|a + b|] == (a + b)[..|a + b|];
      OffPrefix(a + b + d, a + b, |a + b|);
      assert (a + c + d)[..|a + c|] == (a + c)[..|a + c|];
      OffPrefix(a + c + d, a + c, |a + c|);
    } else {
      OffAfter(a, b, c, d, i - 1);
    }
  }

  lemma OffOne(a: Cells, c: Cell)
    ensures Off(a + [c], |a + [c]|) == Off(a, |a|) + HEADER + c.size
  {
    assert (a + [c])[..|a|] == a[..|a|];
    OffPrefix(a + [c], a, |a|);
  }

  lemma OffTwo(a: Cells, c: Cell, d: Cell)
    ensures Off(a + [c, d], |a + [c, d]|) == Off(a, |a|) + HEADER + c.size + HEADER + d.size
  {
    assert a + [c, d] == a + [c] + [d];
    OffOne(a + [c], d);
    OffOne(a, c);
  }

  // ---- allocation ----

  /** align8 on a 32-bit size_t */
  function Align8(n: nat): nat
    requires n < 0x1_0000_0000
  {
    (n + 7) % 0x1_0000_0000 / 8 * 8
  }

  lemma AlignCovers(n: nat)
    requires n < 0x1_0000_0000
    ensures Align8(n) >= n <==> n <= 0xFFFF_FFF8
    ensures Align8(n) % 8 == 0 && Align8(n) < n + 8
  {
  }

  predicate Fits(c: Cell, size: nat) { c.free && c.size >= size }

  /** A block given to the caller, with the rest split off if it is worth a header. */
  function Carved(c: Cell, size: nat): Cells
    requires Fits(c, size)
  {
    if c.size < size + HEADER + MIN_REST then [Cell(c.size, false)]
    else [Cell(size, false), Cell(c.size - size - HEADER, true)]
  }

  function Taken(cs: Cells, k: nat, size: nat): Cells
    requires k < |cs| && Fits(cs[k], size)
  {
    cs[..k] + Carved(cs[k], size) + cs[k + 1..]
  }

  lemma CarvedExtent(a: Cells, c: Cell, size: nat)
    requires Fits(c, size)
    ensures var b := Carved(c, size); Off(a + [c], |a + [c]|) == Off(a + b, |a + b|)
  {
    OffOne(a, c);
    if c.size >= size + HEADER + MIN_REST {
      OffTwo(a, Cell(size, false), Cell(c.size - size - HEADER, true));
    } else {
      OffOne(a, Cell(c.size, false));
    }
  }

  lemma TakenSane(cs: Cells, k: nat, size: nat)
    requires Sane(cs) && k < |cs| && Fits(cs[k], size)
    ensures Sane(Taken(cs, k, size)) && Taken(cs, k, size)[k].size >= size && !Taken(cs, k, size)[k].free
  {
    var a, d, b := cs[..k], cs[k + 1..], Carved(cs[k], size);
    CarvedExtent(a, cs[k], size);
    OffAfter(a, [cs[k]], b, d, |d|);
    assert cs == a + [cs[k]] + d;
    var ds := Taken(cs, k, size);
    forall i, j | 0 <= i < j < |ds| && j == i + 1 ensures !(ds[i].free && ds[j].free) {
      if j < k {
        assert ds[i] == cs[i] && ds[j] == cs[j];
      } else if i >= |a + b| {
        assert ds[i] == cs[i - |b| + 1] && ds[j] == cs[j - |b| + 1];
      } else if i == |a + b| - 1 {
        assert ds[j] == cs[k + 1];
      }
    }
  }

  // ---- freeing ----

  /** The first half of coalesce: a free right neighbour is swallowed. */
  function JoinNext(cs: Cells, k: nat): Cells
    requires k < |cs|
  {
    if k + 1 < |cs| && cs[k + 1].free
    then cs[..k] + [Cell(cs[k].size + HEADER + cs[k + 1].size, cs[k].free)] + cs[k + 2..]
    else cs
  }

  /** coalesce (kernel/heap.c:81-93) */
  function Coalesce(cs: Cells, k: nat): Cells
    requires k < |cs|
    decreases k
  {
    var d := JoinNext(cs, k);
    if k > 0 && d[k - 1].free then Coalesce(d, k - 1) else d
  }

  function Marked(cs: Cells, k: nat): Cells
    requires k < |cs|
  {
    cs[k := cs[k].(free := true)]
  }

  function Released(cs: Cells, k: nat): Cells
    requires k < |cs|
  {
    Coalesce(Marked(cs, k), k)
  }

  lemma JoinExtent(cs: Cells, k: nat)
    requires k < |cs|
    ensures Off(JoinNext(cs, k), |JoinNext(cs, k)|) == Off(cs, |cs|)
  {
    if k + 1 < |cs| && cs[k + 1].free {
      var a, d := cs[..k], cs[k + 2..];
      var whole := Cell(cs[k].size + HEADER + cs[k + 1].size, cs[k].free);
      OffOne(a, whole);
      OffTwo(a, cs[k], cs[k + 1]);
      OffAfter(a, [cs[k], cs[k + 1]], [whole], d, |d|);
      assert cs == a + [cs[k], cs[k + 1]] + d;
    }
  }

  lemma MarkedExtent(cs: Cells, k: nat)
    requires k < |cs|
    ensures Off(Marked(cs, k), |cs|) == Off(cs, |cs|)
  {
    hide Off;
    var a, d := cs[..k], cs[k + 1..];
    OffOne(a, cs[k]);
    OffOne(a, cs[k].(free := true));
    OffAfter(a, [cs[k]], [cs[k].(free := true)], d, |d|);
    assert cs == a + [cs[k]] + d && Marked(cs, k) == a + [cs[k].(free := true)] + d;
  }

  /** Free neighbours occur at most just before or at block k. */
  ghost predicate PairOnlyAt(cs: Cells, k: nat) {
    forall i, j :: 0 <= i < j < |cs| && j == i + 1 && cs[i].free && cs[j].free ==> i == k
  }

  lemma {:induction false} CoalesceSane(cs: Cells, k: nat)
    requires k < |cs| && cs[k].free && Off(cs, |cs|) == HEAP_SIZE
    requires forall i, j :: 0 <= i < j < |cs| && j == i + 1 && cs[i].free && cs[j].free ==> i == k || j == k
    requires k + 2 < |cs| ==> !(cs[k + 1].free && cs[k + 2].free)
    requires k >= 2 ==> !(cs[k - 2].free && cs[k - 1].free)
    ensures Sane(Coalesce(cs, k))
    decreases k
  {
    hide Off, JoinNext;
    var d := JoinNext(cs, k);
    JoinExtent(cs, k);
    JoinShape(cs, k);
    if k > 0 && d[k - 1].free {
      assert PairOnlyAt(d, k - 1);
      CoalesceSane(d, k - 1);
    }
  }

  /** Joining at k leaves no free pair to its right. */
  lemma JoinShape(cs: Cells, k: nat)
    requires k < |cs| && cs[k].free
    requires forall i, j :: 0 <= i < j < |cs| && j == i + 1 && cs[i].free && cs[j].free ==> i == k || j == k
    requires k + 2 < |cs| ==> !(cs[k + 1].free && cs[k + 2].free)
    ensures var d := JoinNext(cs, k);
            k < |d| && d[k].free && d[..k] == cs[..k] && (k > 0 ==> PairOnlyAt(d, k - 1)) && (k == 0 ==> NoFreePair(d))
    ensures var d := JoinNext(cs, k); k + 1 < |d| ==> !d[k + 1].free
  {
    var d := JoinNext(cs, k);
    if k + 1 < |cs| && cs[k + 1].free {
      assert forall i :: 0 <= i < k ==> d[i] == cs[i];
      assert forall i :: k < i < |d| ==> d[i] == cs[i + 1];
    }
  }

  /** Freeing a live block keeps the list sane. */
  lemma ReleasedSane(cs: Cells, k: nat)
    requires Sane(cs) && k < |cs| && !cs[k].free
    ensures Sane(Released(cs, k))
  {
    MarkedExtent(cs, k);
    var m := Marked(cs, k);
    CoalesceSane(m, k);
  }

  // ---- what the two together promise ----

  /** Freeing what was just allocated restores the list exactly. */
  lemma TakeRelease(cs: Cells, k: nat, size: nat)
    requires Sane(cs) && k < |cs| && Fits(cs[k], size)
    ensures Released(Taken(cs, k, size), k) == cs
  {
    var ds := Taken(cs, k, size);
    var m := Marked(ds, k);
    var j := JoinNext(m, k);
    assert k > 0 ==> !cs[k - 1].free;
    if cs[k].size >= size + HEADER + MIN_REST {
      assert j == cs;
    } else {
      assert m == cs;
      assert k + 1 < |cs| ==> !cs[k + 1].free;
      assert j == cs;
    }
  }

  lemma NotBothFree(cs: Cells, i: nat)
    requires NoFreePair(cs) && i + 1 < |cs|
    ensures !(cs[i].free && cs[i + 1].free)
  {
  }

  /** When every block is free, the heap is the single block it started as. */
  lemma AllFree(cs: Cells)
    requires Sane(cs) && forall i :: 0 <= i < |cs| ==> cs[i].free
    ensures cs == [Cell(HEAP_SIZE - HEADER, true)]
  {
    if |cs| >= 2 {
      NotBothFree(cs, 0);
    }
    assert Off(cs, 1) == HEADER + cs[0].size;
  }

  function FreeBytes(cs: Cells): nat {
    if cs == [] then 0 else FreeBytes(cs[..|cs| - 1]) + if cs[|cs| - 1].free then cs[|cs| - 1].size else 0
  }

  function LiveBytes(cs: Cells): nat {
    if cs == [] then 0 else LiveBytes(cs[..|cs| - 1]) + if cs[|cs| - 1].free then 0 else cs[|cs| - 1].size
  }

  /** Every byte is free payload, live payload or header. */
  lemma {:induction false} BytesConserved(cs: Cells)
    ensures FreeBytes(cs) + LiveBytes(cs) + HEADER * |cs| == Off(cs, |cs|)
  {
    if cs != [] {
      var init := cs[..|cs| - 1];
      BytesConserved(init);
      assert cs == init + [cs[|cs| - 1]];
      OffOne(init, cs[|cs| - 1]);
    }
  }

  // ---- splitting one block into two ----

  /** ds is cs with block k split in two. */
  ghost predicate SplitAt(cs: Cells, ds: Cells, k: nat) {
    && k < |cs| && |ds| == |cs| + 1
    && cs[..k] == ds[..k] && cs[k + 1..] == ds[k + 2..]
    && cs[k].size == ds[k].size + HEADER + ds[k + 1].size
  }

  /** The other blocks stay where they are. */
  lemma {:induction false} SplitOffsets(cs: Cells, ds: Cells, k: nat, i: nat)
    requires SplitAt(cs, ds, k) && i <= |cs|
    ensures i <= k ==> Off(ds, i) == Off(cs, i)
    ensures i > k ==> Off(ds, i + 1) == Off(cs, i)
    ensures Off(ds, k + 1) == Off(cs, k) + HEADER + ds[k].size
  {
    assert cs[..k] == ds[..k];
    OffPrefix(cs, ds, k);
    if i <= k {
      assert cs[..i] == cs[..k][..i] && ds[..i] == ds[..k][..i];
      OffPrefix(cs, ds, i);
    } else if i > k + 1 {
      SplitOffsets(cs, ds, k, i - 1);
      assert cs[k + 1..][i - 1 - (k + 1)] == ds[k + 2..][i - 1 - (k + 1)];
    }
  }
}
