/**
 * FAT16 directories (fs/fat16.c:194-278, 331-353, 416-447): 32-byte slots in the
 * root area or along a cluster chain, ended by the first slot that starts with 0.
 */
module Fat16Dir {
  import opened Arith
  import opened Bytes
  import opened Fat16Table
  import opened Fat16Volume

  const UNUSED: byte := 0
  const DELETED: byte := 0xE5
  const MAX_SLOTS: nat := 65536

  function NameOf(e: Entry): seq<byte> { e[..11] }
  function Attr(e: Entry): byte { e[11] }
  function FirstOf(e: Entry): nat { U16(e, 26) + 0x1_0000 * U16(e, 20) }
  function SizeOf(e: Entry): nat { U32(e, 28) }

  predicate IsFree(e: Entry) { e[0] == UNUSED || e[0] == DELETED }
  predicate Visible(e: Entry) { !IsFree(e) && Attr(e) != 0x0F && Attr(e) / 8 % 2 == 0 }
  predicate IsDir(e: Entry) { Attr(e) / 16 % 2 == 1 }

  /** No slot in use lies behind an unused one. */
  ghost predicate EndMarked(slots: seq<Entry>) {
    forall i, j :: 0 <= i < j < |slots| && slots[i][0] == UNUSED ==> slots[j][0] == UNUSED
  }

  // ---- slots along a chain ----

  ghost predicate Holds(d: seq<Cluster>, per: nat, s: seq<nat>) {
    per > 0 && forall i: nat :: i < |s| ==> s[i] < |d| && |d[s[i]]| == 32 * per
  }

  /** Slot j of a cluster. */
  function SlotIn(c: Cluster, j: nat): Entry
    requires 32 * j + 32 <= |c|
  {
    c[32 * j..32 * j + 32]
  }

  function Slot(d: seq<Cluster>, per: nat, s: seq<nat>, i: nat): Entry
    requires Holds(d, per, s) && i < |s| * per
  {
    SlotPlace(per, |s|, i);
    assert s[i / per] < |d| && |d[s[i / per]]| == 32 * per;
    SlotIn(d[s[i / per]], i % per)
  }

  lemma SlotPlace(per: nat, count: nat, i: nat)
    requires per > 0 && i < count * per
    ensures 0 <= i / per < count && 0 <= i % per < per && 32 * (i % per) + 32 <= 32 * per
  {
    DivMod(i, per);
    if i / per >= count {
      Distr(i / per - count, count, per);
      MulNat(i / per - count, per);
    }
  }

  function Slots(d: seq<Cluster>, per: nat, s: seq<nat>): (r: seq<Entry>)
    requires Holds(d, per, s)
    ensures |r| == |s| * per
  {
    MulNat(|s|, per);
    seq(|s| * per, i requires 0 <= i < |s| * per => Slot(d, per, s, i))
  }

  /** The slots of a directory: the root area for head 0, else its chain. */
  function DirSlots(v: FatVol, g: Geometry, head: nat, s: seq<nat>): seq<Entry>
    requires head == 0 || Holds(v.data, g.per, s)
  {
    if head == 0 then v.root else Slots(v.data, g.per, s)
  }

  /** Slots the code can walk: the root's, or those along a chain. */
  ghost predicate Walkable(v: FatVol, g: Geometry, head: nat, s: seq<nat>) {
    Shaped(v, g) && (head != 0 ==> Chain(v.fat, g.max, s) && head == s[0])
  }

  /** A directory: the root, or a chain of at most 65536 slots. */
  ghost predicate DirOk(v: FatVol, g: Geometry, head: nat, s: seq<nat>) {
    Walkable(v, g, head, s) && (head != 0 ==> |s| * g.per <= MAX_SLOTS)
  }

  lemma ChainHolds(v: FatVol, g: Geometry, s: seq<nat>)
    requires Shaped(v, g) && Chain(v.fat, g.max, s)
    ensures Holds(v.data, g.per, s)
  {
  }

  lemma DirHolds(v: FatVol, g: Geometry, head: nat, s: seq<nat>)
    requires Walkable(v, g, head, s)
    ensures head == 0 || Holds(v.data, g.per, s)
    ensures DirOk(v, g, head, s) ==> |DirSlots(v, g, head, s)| <= MAX_SLOTS
    ensures head == 0 ==> |DirSlots(v, g, head, s)| <= g.rootCount <= MAX_SLOTS
  {
    if head != 0 {
      ChainHolds(v, g, s);
    }
  }

  /** fs/fat16.c:212-222: walk to the cluster of a slot; false past the end of the chain */
  method SeekCluster(vol: FatVolume, head: nat, skip: nat, ghost s: seq<nat>) returns (ok: bool, cluster: nat)
    requires vol.Valid() && Chain(vol.View().fat, vol.geo.max, s) && head == s[0]
    ensures ok <==> skip < |s|
    ensures ok ==> cluster == s[skip]
  {
    ChainSome(vol.copies[0], vol.geo.max, s);
    hide Chain;
    cluster := head;
    var k := 0;
    while k < skip
      invariant 0 <= k <= skip && k < |s| && cluster == s[k]
    {
      ChainAt(vol.copies[0], vol.geo.max, s, k);
      var next := vol.FatRead(cluster);
      if next >= EOC {
        ChainLater(vol.copies[0], vol.geo.max, s, k);
        return false, 0;
      }
      cluster := next;
      k := k + 1;
    }
    return true, cluster;
  }

  lemma ChainLater(f: seq<nat>, max: nat, s: seq<nat>, k: nat)
    requires Chain(f, max, s) && k < |s| && s[k] < TABLE && f[s[k]] >= EOC
    ensures k + 1 == |s|
  {
    ChainAt(f, max, s, k);
  }

  lemma ChainSome(f: seq<nat>, max: nat, s: seq<nat>)
    requires Chain(f, max, s)
    ensures s != [] && s[0] != 0
  {
  }

  /** read_dir_entry_at (fs/fat16.c:194-230) */
  method ReadSlot(vol: FatVolume, head: nat, index: nat, ghost s: seq<nat>) returns (ok: bool, e: Entry)
    requires vol.Valid() && Walkable(vol.View(), vol.geo, head, s)
    ensures head == 0 || Holds(vol.data, vol.geo.per, s)
    ensures ok <==> index < |DirSlots(vol.View(), vol.geo, head, s)|
    ensures ok ==> e == DirSlots(vol.View(), vol.geo, head, s)[index]
  {
    hide Chain;
    DirHolds(vol.View(), vol.geo, head, s);
    if head == 0 {
      if index >= vol.geo.rootCount {
        return false, Zeros(32);
      }
      return true, vol.root[index];
    }
    SlotIndex(vol.geo.per, |s|, index);
    var found, cluster := SeekCluster(vol, head, index / vol.geo.per, s);
    if !found {
      return false, Zeros(32);
    }
    return true, SlotIn(vol.data[cluster], index % vol.geo.per);
  }

  lemma SlotIndex(per: nat, count: nat, i: nat)
    requires per > 0
    ensures i / per >= 0 && 0 <= i % per < per && 32 * (i % per) + 32 <= 32 * per
    ensures i / per < count <==> i < count * per
  {
    QuotientNat(i, per);
    DivMod(i, per);
    if i < count * per {
      SlotPlace(per, count, i);
    }
    if i / per < count {
      Distr(i / per, 1, per);
      Distr(i / per + 1, count - (i / per + 1), per);
      MulNat(count - (i / per + 1), per);
    }
  }

  // ---- writing a slot ----

  /** The volume with slot i of a directory replaced. */
  function SlotWritten(v: FatVol, g: Geometry, head: nat, s: seq<nat>, i: nat, e: Entry): FatVol
    requires head == 0 || Holds(v.data, g.per, s)
    requires i < |DirSlots(v, g, head, s)|
  {
    if head == 0 then v.(root := v.root[i := e])
    else
      SlotPlace(g.per, |s|, i);
      var c := s[i / g.per];
      assert c < |v.data| && |v.data[c]| == 32 * g.per;
      v.(data := v.data[c := Put(v.data[c], 32 * (i % g.per), e)])
  }

  /** write_dir_entry_at (fs/fat16.c:232-268) */
  method WriteSlot(vol: FatVolume, head: nat, index: nat, e: Entry, ghost s: seq<nat>) returns (ok: bool)
    requires vol.Valid() && Walkable(vol.View(), vol.geo, head, s)
    modifies vol`data, vol`root
    ensures vol.Valid() && (head == 0 || Holds(old(vol.data), vol.geo.per, s))
    ensures ok <==> index < |DirSlots(old(vol.View()), vol.geo, head, s)|
    ensures vol.View() == if ok then SlotWritten(old(vol.View()), vol.geo, head, s, index, e) else old(vol.View())
  {
    hide Chain, Put;
    DirHolds(vol.View(), vol.geo, head, s);
    if head == 0 {
      if index >= vol.geo.rootCount {
        return false;
      }
      vol.root := vol.root[index := e];
      return true;
    }
    SlotIndex(vol.geo.per, |s|, index);
    var found, cluster := SeekCluster(vol, head, index / vol.geo.per, s);
    if !found {
      return false;
    }
    vol.data := vol.data[cluster := Put(vol.data[cluster], 32 * (index % vol.geo.per), e)];
    return true;
  }

  lemma SlotWrittenIn(v: FatVol, g: Geometry, s: seq<nat>, i: nat, e: Entry, j: nat)
    requires Holds(v.data, g.per, s) && Distinct(s) && i < |s| * g.per && j < |s| * g.per && s != [] && s[0] != 0
    ensures var w := SlotWritten(v, g, s[0], s, i, e);
            Holds(w.data, g.per, s) && Slot(w.data, g.per, s, j) == if j == i then e else Slot(v.data, g.per, s, j)
  {
    SlotPlace(g.per, |s|, i);
    SlotPlace(g.per, |s|, j);
    var w := SlotWritten(v, g, s[0], s, i, e);
    var c := s[i / g.per];
    assert c < |v.data| && |v.data[c]| == 32 * g.per;
    if j / g.per == i / g.per {
      DivMod(i, g.per);
      DivMod(j, g.per);
      var a, b := 32 * (i % g.per), 32 * (j % g.per);
      if i == j {
        PutSlice(v.data[c], a, e);
      } else {
        PutOutside(v.data[c], a, e, b, b + 32);
      }
    } else {
      assert s[j / g.per] != c;
    }
  }

  /** Only that slot changes, and only the directory's own storage. */
  lemma SlotWrittenMeans(v: FatVol, g: Geometry, head: nat, s: seq<nat>, i: nat, e: Entry)
    requires Walkable(v, g, head, s) && (head == 0 || Holds(v.data, g.per, s)) && i < |DirSlots(v, g, head, s)|
    ensures var w := SlotWritten(v, g, head, s, i, e);
            && w.fat == v.fat && Walkable(w, g, head, s) && (DirOk(v, g, head, s) ==> DirOk(w, g, head, s))
            && (head == 0 || Holds(w.data, g.per, s))
            && DirSlots(w, g, head, s) == DirSlots(v, g, head, s)[i := e]
            && (head == 0 ==> w.data == v.data) && (head != 0 ==> w.root == v.root)
            && forall c: nat :: c < |v.data| && c !in s ==> w.data[c] == v.data[c]
  {
    hide Put, Slot;
    var w := SlotWritten(v, g, head, s, i, e);
    if head != 0 {
      SlotPlace(g.per, |s|, i);
      assert s[i / g.per] in s;
      forall j: nat | j < |s| * g.per ensures Slots(w.data, g.per, s)[j] == Slots(v.data, g.per, s)[i := e][j] {
        SlotWrittenIn(v, g, s, i, e, j);
      }
    }
  }

  // ---- looking for a name ----

  /** The first slot a scan for the name stops at. */
  predicate Hit(e: Entry, name: seq<byte>) { Visible(e) && NameOf(e) == name }

  /** A slot the scan reaches carries the name: before the first unused one and among the first 65536. */
  ghost predicate Scanned(slots: seq<Entry>, name: seq<byte>) {
    exists i :: 0 <= i < |slots| && i < MAX_SLOTS && Hit(slots[i], name) && forall j :: 0 <= j < i ==>
        slots[j][0] != UNUSED
  }

  /** In an end-marked directory the scan reaches every name. */
  lemma ScannedAll(slots: seq<Entry>, name: seq<byte>)
    requires EndMarked(slots) && |slots| <= MAX_SLOTS
    ensures Scanned(slots, name) <==> exists i :: 0 <= i < |slots| && Hit(slots[i], name)
  {
    if i :| 0 <= i < |slots| && Hit(slots[i], name) {
      assert forall j :: 0 <= j < i ==> slots[j][0] != UNUSED;
    }
  }

  /** find_in_dir (fs/fat16.c:331-353): on an end-marked directory it finds the name exactly if some slot holds it */
  method FindInDir(vol: FatVolume, head: nat, name: seq<byte>, ghost s: seq<nat>)
    returns (found: bool, index: nat, e: Entry)
    requires vol.Valid() && Walkable(vol.View(), vol.geo, head, s)
    ensures head == 0 || Holds(vol.data, vol.geo.per, s)
    ensures found ==>
              index < |DirSlots(vol.View(), vol.geo, head, s)| && e == DirSlots(vol.View(), vol.geo, head, s)[index]
              && Hit(e, name)
    ensures found ==> forall j :: 0 <= j < index ==>
              !Hit(DirSlots(vol.View(), vol.geo, head, s)[j], name)
              && DirSlots(vol.View(), vol.geo, head, s)[j][0] != UNUSED
    ensures found <==> Scanned(DirSlots(vol.View(), vol.geo, head, s), name)
    ensures EndMarked(DirSlots(vol.View(), vol.geo, head, s)) && DirOk(vol.View(), vol.geo, head, s) ==>
              (found <==> exists i ::
                  0 <= i < |DirSlots(vol.View(), vol.geo, head, s)|
                  && Hit(DirSlots(vol.View(), vol.geo, head, s)[i], name))
  {
    hide DirOk, Walkable, DirSlots, Holds, Hit;
    DirHolds(vol.View(), vol.geo, head, s);
    ghost var slots := DirSlots(vol.View(), vol.geo, head, s);
    if EndMarked(slots) && DirOk(vol.View(), vol.geo, head, s) {
      ScannedAll(slots, name);
    }
    var max := if head == 0 then vol.geo.rootCount else MAX_SLOTS;
    var i := 0;
    while i < max
      invariant 0 <= i <= max && i <= |slots| && forall j :: 0 <= j < i ==>
                  !Hit(slots[j], name) && slots[j][0] != UNUSED
    {
      var ok;
      ok, e := ReadSlot(vol, head, i, s);
      if !ok {
        return false, 0, e;
      }
      if e[0] == UNUSED {
        UnusedMisses(e, name);
        return false, 0, e;
      }
      if Hit(e, name) {
        return true, i, e;
      }
      i := i + 1;
    }
    return false, 0, Zeros(32);
  }

  lemma UnusedMisses(e: Entry, name: seq<byte>)
    requires e[0] == UNUSED
    ensures !Hit(e, name)
  {
  }

  // ---- finding room ----

  /** The directory chain s gained cluster n, which was free and is now zero. */
  ghost predicate Extended(v: FatVol, w: FatVol, g: Geometry, s: seq<nat>, n: nat) {
    && Shaped(v, g) && Chain(v.fat, g.max, s) && 2 <= n < g.max && v.fat[n] == FREE
    && w == v.(fat := v.fat[n := LAST][s[|s| - 1] := n], data := v.data[n := Zeros(g.Size())])
  }

  /** No slot is free. */
  ghost predicate Full(slots: seq<Entry>) {
    forall i :: 0 <= i < |slots| ==> !IsFree(slots[i])
  }

  lemma ExtendedChain(v: FatVol, w: FatVol, g: Geometry, s: seq<nat>, n: nat)
    requires Extended(v, w, g, s, n)
    ensures Chain(w.fat, g.max, s + [n]) && n !in s && Shaped(w, g)
    ensures forall c: nat :: c < |v.data| && c != n ==> w.data[c] == v.data[c]
    ensures forall x: nat :: x < TABLE && x != n && x !in s ==> w.fat[x] == v.fat[x]
  {
    assert s[|s| - 1] in s;
    NotInChain(v.fat, g.max, s, n);
    ChainAppended(v.fat, g.max, s, n);
  }

  /** A free cluster is in no chain. */
  lemma NotInChain(f: seq<nat>, max: nat, s: seq<nat>, n: nat)
    requires Chain(f, max, s) && n < TABLE && f[n] == FREE
    ensures n !in s
  {
    hide Chain;
    forall i: nat | i < |s| ensures s[i] != n {
      ChainAt(f, max, s, i);
      if i + 1 < |s| { ChainAt(f, max, s, i + 1); }
    }
  }

  lemma ChainAppended(f: seq<nat>, max: nat, s: seq<nat>, n: nat)
    requires Chain(f, max, s) && 2 <= n < max && n < EOC && n !in s
    ensures s[|s| - 1] < TABLE && Chain(f[n := LAST][s[|s| - 1] := n], max, s + [n])
  {
    ChainAt(f, max, s, |s| - 1);
    var t, h := s + [n], f[n := LAST][s[|s| - 1] := n];
    assert Distinct(t);
    forall i: nat | i < |t| ensures 2 <= t[i] < max && t[i] < EOC && Follows(t, i, h[t[i]]) {
      AppendedLink(f, max, s, n, i);
    }
  }

  lemma AppendedLink(f: seq<nat>, max: nat, s: seq<nat>, n: nat, i: nat)
    requires Chain(f, max, s) && 2 <= n < max && n < EOC && n !in s && i <= |s| && s[|s| - 1] < TABLE
    ensures var t, h := s + [n], f[n := LAST][s[|s| - 1] := n];
            2 <= t[i] < max && t[i] < EOC && t[i] < |h| && Follows(t, i, h[t[i]])
  {
    assert Distinct(s);
    assert s[|s| - 1] in s;
    if i < |s| {
      ChainAt(f, max, s, i);
      assert s[i] in s;
      assert i + 1 < |s| ==> s[i] != s[|s| - 1];
    }
  }

  lemma ExtendedSlots(v: FatVol, w: FatVol, g: Geometry, s: seq<nat>, n: nat)
    requires Extended(v, w, g, s, n)
    ensures Holds(v.data, g.per, s) && Holds(w.data, g.per, s + [n])
    ensures |Slots(w.data, g.per, s + [n])| == |s| * g.per + g.per
    ensures var a, b := Slots(v.data, g.per, s), Slots(w.data, g.per, s + [n]);
            b[..|a|] == a && forall j: nat :: |a| <= j < |b| ==> b[j] == Zeros(32)
  {
    hide Chain, Slot;
    ExtendedChain(v, w, g, s, n);
    ChainHolds(v, g, s);
    ChainHolds(w, g, s + [n]);
    Distr(|s|, 1, g.per);
    var a, b := Slots(v.data, g.per, s), Slots(w.data, g.per, s + [n]);
    forall j: nat | j < |b| ensures b[j] == if j < |a| then a[j] else Zeros(32) {
      ExtendedSlot(v, w, g, s, n, j);
    }
  }

  lemma ExtendedSlot(v: FatVol, w: FatVol, g: Geometry, s: seq<nat>, n: nat, j: nat)
    requires Extended(v, w, g, s, n) && Holds(v.data, g.per, s) && Holds(w.data, g.per, s + [n]) && n !in s
             && j < |s + [n]| * g.per
    ensures Slot(w.data, g.per, s + [n], j) == if j < |s| * g.per then Slot(v.data, g.per, s, j) else Zeros(32)
  {
    hide Chain;
    var t := s + [n];
    SlotIndex(g.per, |s|, j);
    SlotPlace(g.per, |t|, j);
    var q := j / g.per;
    if q < |s| {
      assert t[q] == s[q] && s[q] in s;
    } else {
      assert t[q] == n;
      assert SlotIn(Zeros(g.Size()), j % g.per) == Zeros(32);
    }
  }

  /** fs/fat16.c:427-431: the end of the chain */
  method LastCluster(vol: FatVolume, head: nat, ghost s: seq<nat>) returns (last: nat)
    requires vol.Valid() && Chain(vol.View().fat, vol.geo.max, s) && head == s[0]
    ensures s != [] && last == s[|s| - 1]
  {
    ChainSome(vol.copies[0], vol.geo.max, s);
    hide Chain;
    last := head;
    ghost var k := 0;
    ChainAt(vol.copies[0], vol.geo.max, s, 0);
    var next := vol.FatRead(last);
    while next < EOC
      invariant 0 <= k < |s| && last == s[k] < TABLE && next == vol.copies[0][last]
      decreases |s| - k
    {
      ChainAt(vol.copies[0], vol.geo.max, s, k);
      k := k + 1;
      ChainAt(vol.copies[0], vol.geo.max, s, k);
      last := next;
      next := vol.FatRead(last);
    }
    ChainLater(vol.copies[0], vol.geo.max, s, k);
  }

  /** The new cluster is one fewer free. */
  lemma ExtendedCount(v: FatVol, w: FatVol, g: Geometry, s: seq<nat>, n: nat)
    requires Extended(v, w, g, s, n)
    ensures |w.fat| == |v.fat| == TABLE && g.max <= TABLE && FreeCount(w.fat, g.max) == FreeCount(v.fat, g.max) - 1
  {
    hide FreeCount;
    LastUsed(v.fat, g.max, s);
    FreeCountUpdate(v.fat, n, LAST, g.max);
    FreeCountUpdate(v.fat[n := LAST], s[|s| - 1], n, g.max);
  }

  /** What find_free_slot leaves: a free slot of an unchanged directory, or the first slot of a new cluster. */
  ghost predicate SlotFound(v: FatVol, w: FatVol, g: Geometry, head: nat, s: seq<nat>, t: seq<nat>, index: nat) {
    && (head == 0 || Holds(v.data, g.per, s))
    && var slots := DirSlots(v, g, head, s);
       if Full(slots)
         then head != 0 && t != [] && t == s + [t[|t| - 1]] && Extended(v, w, g, s, t[|t| - 1])
         && index == |slots| < MAX_SLOTS
       else t == s && w == v && index < |slots| && IsFree(slots[index]) && forall i :: 0 <= i < index ==>
           !IsFree(slots[i])
  }

  /** A slot is free, or the directory is a chain that can still grow. */
  ghost predicate Roomy(v: FatVol, g: Geometry, head: nat, slots: seq<Entry>) {
    && Shaped(v, g)
    && (FreeAmong(slots) || (Full(slots) && head != 0 && |slots| < MAX_SLOTS && FreeCount(v.fat, g.max) > 0))
  }

  /** One of the slots the scan reaches is free. */
  ghost predicate FreeAmong(slots: seq<Entry>) {
    exists i :: 0 <= i < |slots| && i < MAX_SLOTS && IsFree(slots[i])
  }

  /** The clusters find_free_slot takes. */
  ghost function Grown(slots: seq<Entry>): nat { if Full(slots) then 1 else 0 }

  /** find_free_slot (fs/fat16.c:416-447) */
  method FindFreeSlot(vol: FatVolume, head: nat, ghost s: seq<nat>) returns (ok: bool, index: nat, ghost t: seq<nat>)
    requires vol.Valid() && Walkable(vol.View(), vol.geo, head, s)
    modifies vol`copies, vol`data
    ensures vol.Valid() && (!ok ==> vol.View() == old(vol.View()))
    ensures head == 0 || Holds(old(vol.data), vol.geo.per, s)
    ensures ok <==> Roomy(old(vol.View()), vol.geo, head, DirSlots(old(vol.View()), vol.geo, head, s))
    ensures ok ==> SlotFound(old(vol.View()), vol.View(), vol.geo, head, s, t, index)
  {
    hide DirOk, Walkable, DirSlots, Holds, Extended, Chain, IsFree, FreeCount;
    ghost var v := vol.View();
    DirHolds(v, vol.geo, head, s);
    ghost var slots := DirSlots(v, vol.geo, head, s);
    var max := if head == 0 then vol.geo.rootCount else MAX_SLOTS;
    t := s;
    index := 0;
    while index < max
      invariant 0 <= index <= max && index <= |slots| && forall j :: 0 <= j < index ==> !IsFree(slots[j])
      invariant vol.Valid() && vol.View() == v
    {
      var read, e := ReadSlot(vol, head, index, s);
      if !read {
        if head == 0 {
          return false, 0, s;
        }
        DirChain(v, vol.geo, head, s);
        ok, t := Extend(vol, head, s);
        NextSlot(vol.geo.per, |s|);
        index := CeilDiv(index, vol.geo.per) * vol.geo.per;
        return;
      }
      if IsFree(e) {
        return true, index, s;
      }
      index := index + 1;
    }
    return false, 0, s;
  }

  lemma NextSlot(per: nat, count: nat)
    requires per > 0
    ensures CeilDiv(count * per, per) * per == count * per
  {
    ModUnique(count * per + per - 1, count, per - 1, per);
  }

  lemma DirChain(v: FatVol, g: Geometry, head: nat, s: seq<nat>)
    requires Walkable(v, g, head, s) && head != 0
    ensures Chain(v.fat, g.max, s) && head == s[0] && Holds(v.data, g.per, s)
            && |DirSlots(v, g, head, s)| == |s| * g.per
  {
    DirHolds(v, g, head, s);
  }

  /** fs/fat16.c:427-439: one more cluster for the directory */
  method Extend(vol: FatVolume, head: nat, ghost s: seq<nat>) returns (ok: bool, ghost t: seq<nat>)
    requires vol.Valid() && Chain(vol.View().fat, vol.geo.max, s) && head == s[0]
    modifies vol`copies, vol`data
    ensures vol.Valid() && (!ok ==> vol.View() == old(vol.View()))
    ensures ok <==> FreeCount(old(vol.View()).fat, vol.geo.max) > 0
    ensures ok ==> t != [] && t == s + [t[|t| - 1]] && Extended(old(vol.View()), vol.View(), vol.geo, s, t[|t| - 1])
  {
    ghost var v := vol.View();
    var last := LastCluster(vol, head, s);
    LastUsed(v.fat, vol.geo.max, s);
    hide Chain, FreeCount;
    NoneFree(v.fat, vol.geo.max);
    var n := vol.AllocCluster();
    if n == 0 {
      return false, s;
    }
    vol.FatWrite(last, n);
    vol.FatWrite(n, LAST);
    t := s + [n];
    assert vol.View().fat == v.fat[n := LAST][last := n];
    return true, t;
  }

  lemma LastUsed(f: seq<nat>, max: nat, s: seq<nat>)
    requires Chain(f, max, s)
    ensures s[|s| - 1] < TABLE && f[s[|s| - 1]] != FREE
  {
    ChainAt(f, max, s, |s| - 1);
  }
}
