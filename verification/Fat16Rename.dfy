/**
 * fat16_rename (fs/fat16.c:805-831): the entry is copied under its new name and
 * the old slot is marked deleted; its chain stays where it is.
 */
module Fat16Rename {
  import opened Arith
  import opened Bytes
  import opened Fat16Table
  import opened Fat16Volume
  import opened Fat16Names
  import opened Fat16Dir
  import opened Fat16Tree
  import opened Fat16
  import opened Fat16Write
  import opened Fat16Change

  lemma PutCommute(b: seq<byte>, x: nat, e: seq<byte>, y: nat, f: seq<byte>)
    requires x + |e| <= |b| && y + |f| <= |b| && (x + |e| <= y || y + |f| <= x)
    ensures Put(Put(b, x, e), y, f) == Put(Put(b, y, f), x, e)
  {
    hide Put;
  }

  /** Slot i of a directory can be written. */
  ghost predicate Place(v: FatVol, g: Geometry, cat: Cat, d: nat, i: nat) {
    (d == 0 || Holds(v.data, g.per, ChainOf(cat, d))) && i < |DirSlots(v, g, d, ChainOf(cat, d))|
  }

  ghost function Wrote(v: FatVol, g: Geometry, cat: Cat, d: nat, i: nat, e: Entry): FatVol
    requires Place(v, g, cat, d, i)
  {
    SlotWritten(v, g, d, ChainOf(cat, d), i, e)
  }

  /** Writes to two different slots can be swapped. */
  lemma WritesCommute(v: FatVol, g: Geometry, cat: Cat, d: nat, i: nat, e: Entry, q: nat, j: nat, f: Entry)
    requires ChainsOk(v, g, cat) && Place(v, g, cat, d, i) && Place(v, g, cat, q, j) && (d != q || i != j)
    requires (d != 0 ==> d in cat.chains) && (q != 0 ==> q in cat.chains)
    ensures Place(Wrote(v, g, cat, d, i, e), g, cat, q, j) && Place(Wrote(v, g, cat, q, j, f), g, cat, d, i)
    ensures Wrote(Wrote(v, g, cat, d, i, e), g, cat, q, j, f) == Wrote(Wrote(v, g, cat, q, j, f), g, cat, d, i, e)
  {
    hide Put, Chain, Slots, Holds, DirSlots, SlotWritten, ChainsOk;
    WritePlaces(v, g, cat, d, i, e, q, j);
    WritePlaces(v, g, cat, q, j, f, d, i);
    var w, x := Wrote(v, g, cat, d, i, e), Wrote(v, g, cat, q, j, f);
    WroteIs(v, g, cat, d, i, e);
    WroteIs(v, g, cat, q, j, f);
    WroteIs(w, g, cat, q, j, f);
    WroteIs(x, g, cat, d, i, e);
    if d != 0 && q != 0 {
      ClustersApart(v, g, cat, d, i, q, j);
      var c, b := cat.chains[d][i / g.per], cat.chains[q][j / g.per];
      DataCommute(v.data, c, 32 * (i % g.per), e, b, 32 * (j % g.per), f);
    }
  }

  lemma DataCommute(d: seq<Cluster>, c: nat, x: nat, e: Entry, b: nat, y: nat, f: Entry)
    requires c < |d| && b < |d| && x + 32 <= |d[c]| && y + 32 <= |d[b]| && (c == b ==> x + 32 <= y || y + 32 <= x)
    ensures var p, q := d[c := Put(d[c], x, e)], d[b := Put(d[b], y, f)];
            p[b := Put(p[b], y, f)] == q[c := Put(q[c], x, e)]
  {
    hide Put;
    if c == b {
      PutCommute(d[c], x, e, y, f);
    }
  }

  /** What writing a slot does to the storage. */
  lemma WroteIs(v: FatVol, g: Geometry, cat: Cat, d: nat, i: nat, e: Entry)
    requires Place(v, g, cat, d, i) && (d != 0 ==> d in cat.chains)
    ensures d == 0 ==> i < |v.root| && Wrote(v, g, cat, d, i, e) == v.(root := v.root[i := e])
    ensures d != 0 ==>
              g.per > 0 && i < |cat.chains[d]| * g.per && 0 <= i / g.per < |cat.chains[d]| && 0 <= i % g.per < g.per
    ensures d != 0 ==> var c := cat.chains[d][i / g.per];
                       c < |v.data| && |v.data[c]| == 32 * g.per
                       && Wrote(v, g, cat, d, i, e) == v.(data := v.data[c := Put(v.data[c], 32 * (i % g.per), e)])
  {
    hide Put, Slots;
    if d != 0 {
      SlotPlace(g.per, |cat.chains[d]|, i);
      var c := cat.chains[d][i / g.per];
      assert c < |v.data| && |v.data[c]| == 32 * g.per;
    }
  }

  /** Two slots in one cluster are in the same directory, 32 bytes apart. */
  lemma ClustersApart(v: FatVol, g: Geometry, cat: Cat, d: nat, i: nat, q: nat, j: nat)
    requires ChainsOk(v, g, cat) && d in cat.chains && q in cat.chains && g.per > 0 && (d != q || i != j)
    requires i < |cat.chains[d]| * g.per && j < |cat.chains[q]| * g.per
    ensures 0 <= i / g.per < |cat.chains[d]| && 0 <= j / g.per < |cat.chains[q]|
    ensures cat.chains[d][i / g.per] == cat.chains[q][j / g.per] ==> i % g.per != j % g.per
  {
    hide Follows;
    SlotPlace(g.per, |cat.chains[d]|, i);
    SlotPlace(g.per, |cat.chains[q]|, j);
    var c, b := cat.chains[d][i / g.per], cat.chains[q][j / g.per];
    if d != q {
      assert Disjoint(cat.chains[d], cat.chains[q]) && c in cat.chains[d];
    } else {
      assert ChainOk(v, g, cat, d);
      DivMod(i, g.per);
      DivMod(j, g.per);
    }
  }

  lemma WritePlaces(v: FatVol, g: Geometry, cat: Cat, d: nat, i: nat, e: Entry, q: nat, j: nat)
    requires Place(v, g, cat, d, i) && Place(v, g, cat, q, j)
    ensures Place(Wrote(v, g, cat, d, i, e), g, cat, q, j)
  {
    hide Put, Slots, ChainOf, Slot;
    if d != 0 {
      SlotPlace(g.per, |ChainOf(cat, d)|, i);
      var c := ChainOf(cat, d)[i / g.per];
      assert c < |v.data| && |v.data[c]| == 32 * g.per;
      var w := Wrote(v, g, cat, d, i, e);
      if q != 0 {
        var t := ChainOf(cat, q);
        forall k: nat | k < |t| ensures t[k] < |w.data| && |w.data[t[k]]| == 32 * g.per {
        }
      }
    }
  }

  // ---- the move ----

  /** Slot (d, i) with entry e moves to the free slot (q, j). */
  ghost predicate CanShift(v: FatVol, g: Geometry, cat: Cat, d: nat, i: nat, e: Entry, q: nat, j: nat) {
    && Good(v, g, cat) && Owned(v, g, cat, d, i) && SlotsOf(v, g, cat, d)[i] == e
    && q in cat.dirs && Listable(v, g, cat, q) && j < |SlotsOf(v, g, cat, q)| && IsFree(SlotsOf(v, g, cat, q)[j])
    && forall k :: 0 <= k < j ==> SlotsOf(v, g, cat, q)[k][0] != UNUSED
  }

  lemma ShiftDelete(v: FatVol, g: Geometry, cat: Cat, d: nat, i: nat, e: Entry, q: nat, j: nat)
    requires CanShift(v, g, cat, d, i, e, q, j)
    ensures CanWrite(v, g, cat, d, i, Deleted(e)) && (d != q || i != j) && d in cat.dirs && EntryOk(g, cat, e)
            && Owning(e)
    ensures OwnedFirst(v, g, cat, d, i) == FirstOf(e)
  {
    hide ChainsOk, DirsOk, OneOwner, SlotsOf, Listable, EndMarked, NoOther, Deleted, EntryOk, DotName;
    OwnedDir(v, g, cat, d, i);
    OwnedIn(v, g, cat, d, i);
    GoodDir(v, g, cat, d);
    OwningUsed(e);
    UsedBefore(SlotsOf(v, g, cat, d), i);
    DeletedReads(e);
  }

  lemma RenamedOwns(g: Geometry, cat: Cat, e: Entry, name: seq<byte>)
    requires Owning(e) && EntryOk(g, cat, e) && Usable(name)
    ensures var r := Renamed(e, name);
            Owning(r) && EntryOk(g, cat, r) && FirstOf(r) == FirstOf(e) && r[0] != UNUSED && NameOf(r) == name
            && IsDir(r) == IsDir(e)
  {
    hide DotName, Renamed, FirstOf, SizeOf;
    RenamedReads(e, name);
  }

  /** After the old slot is deleted, the new one may be filled. */
  lemma ShiftFill(v: FatVol, g: Geometry, cat: Cat, d: nat, i: nat, e: Entry, q: nat, j: nat, name: seq<byte>)
    requires CanShift(v, g, cat, d, i, e, q, j) && Usable(name)
    ensures Place(v, g, cat, d, i) && CanWrite(Wrote(v, g, cat, d, i, Deleted(e)), g, cat, q, j, Renamed(e, name))
            && Owning(Renamed(e, name))
  {
    hide Good, SlotsOf, Listable, Owning, SlotWritten, NoOther, EntryOk, Holds, DirSlots, Deleted, Renamed, Usable,
         Owned, OwnedFirst;
    ShiftDelete(v, g, cat, d, i, e, q, j);
    SlotStep(v, g, cat, d, i, Deleted(e));
    var y := Wrote(v, g, cat, d, i, Deleted(e));
    DeletedReads(e);
    RenamedOwns(g, cat, e, name);
    SlotStepDirs(v, g, cat, d, i, Deleted(e), q);
    SoleOwner(v, g, cat, d, i);
    if FirstOf(e) != 0 {
      forall a: nat, b: nat | Owned(y, g, cat, a, b) && (a != q || b != j)
          ensures OwnedFirst(y, g, cat, a, b) != FirstOf(e) {
        OwnersAfter(v, g, cat, d, i, Deleted(e), a, b);
        OtherFirst(v, g, cat, d, i, FirstOf(e), a, b);
      }
      NoOtherIs(y, g, cat, q, j, FirstOf(e));
    }
  }

  lemma NoOtherIs(v: FatVol, g: Geometry, cat: Cat, d: nat, i: nat, h: nat)
    requires forall a: nat, b: nat :: Owned(v, g, cat, a, b) && (a != d || b != i) ==> OwnedFirst(v, g, cat, a, b) != h
    ensures NoOther(v, g, cat, d, i, h)
  {
    hide Owned, OwnedFirst;
  }

  /** The entry is at its new slot under its new name with the same file; the old slot is deleted; all else is kept. */
  ghost predicate SlotMoved(v: FatVol, w: FatVol, g: Geometry, cat: Cat, cat': Cat, d: nat, i: nat, q: nat, j: nat,
      name: seq<byte>) {
    && Good(v, g, cat) && Good(w, g, cat') && Owned(v, g, cat, d, i) && Owned(w, g, cat', q, j) && |name| == 11
    && OthersKept(v, w, g, cat, cat', d, i) && NoneNew(v, w, g, cat, cat', q, j)
    && var e, r := SlotsOf(v, g, cat, d)[i], SlotsOf(w, g, cat', q)[j];
       && r == Renamed(e, name) && Listable(w, g, cat', d) && i < |SlotsOf(w, g, cat', d)|
       && SlotsOf(w, g, cat', d)[i][0] == DELETED
       && EntryOk(g, cat, e) && EntryOk(g, cat', r) && (!IsDir(e) ==> Contents(w, g, cat', r) == Contents(v, g, cat, e))
  }

  lemma ShiftDone(v: FatVol, g: Geometry, cat: Cat, d: nat, i: nat, e: Entry, q: nat, j: nat, name: seq<byte>)
    requires CanShift(v, g, cat, d, i, e, q, j) && Usable(name)
    ensures Place(v, g, cat, d, i) && Place(Wrote(v, g, cat, d, i, Deleted(e)), g, cat, q, j)
    ensures SlotMoved(v, Wrote(Wrote(v, g, cat, d, i, Deleted(e)), g, cat, q, j, Renamed(e, name)), g, cat, cat, d, i,
            q, j, name)
  {
    hide Good, SlotsOf, Listable, Owning, SlotWritten, NoOther, EntryOk, Holds, DirSlots, Deleted, Renamed, Usable,
         Owned, OwnedFirst, CanWrite, SlotKept, Contents, SlotFilled;
    ShiftDelete(v, g, cat, d, i, e, q, j);
    ShiftFill(v, g, cat, d, i, e, q, j, name);
    UsableSize(name);
    CanWriteGood(v, g, cat, d, i, Deleted(e));
    var y := Wrote(v, g, cat, d, i, Deleted(e));
    CanWriteGood(y, g, cat, q, j, Renamed(e, name));
    ShiftFree(v, g, cat, d, i, e, q, j);
    FillSlot(y, g, cat, q, j, Renamed(e, name));
    var w := Wrote(y, g, cat, q, j, Renamed(e, name));
    FilledMeans(y, w, g, cat, q, j, Renamed(e, name));
    RenamedOwns(g, cat, e, name);
    DeletedReads(e);
    ShiftListed(v, g, cat, d, i, e, q, j, name);
    forall a: nat, b: nat | Owned(v, g, cat, a, b) && (a != d || b != i) ensures SlotKept(v, w, g, cat, cat, a, b) {
      ShiftOther(v, g, cat, d, i, e, q, j, name, a, b);
    }
    forall a: nat, b: nat | Owned(w, g, cat, a, b) && (a != q || b != j) ensures Owned(v, g, cat, a, b) {
      OwnersAfter(y, g, cat, q, j, Renamed(e, name), a, b);
      OwnersAfter(v, g, cat, d, i, Deleted(e), a, b);
    }
    ShiftContents(v, g, cat, d, i, e, q, j, name);
  }

  lemma ShiftFree(v: FatVol, g: Geometry, cat: Cat, d: nat, i: nat, e: Entry, q: nat, j: nat)
    requires CanShift(v, g, cat, d, i, e, q, j) && CanWrite(v, g, cat, d, i, Deleted(e)) && Place(v, g, cat, d, i)
    ensures !Owned(Wrote(v, g, cat, d, i, Deleted(e)), g, cat, q, j)
  {
    hide Good, SlotsOf, Listable, Owning, SlotWritten, Holds, DirSlots, Deleted, Owned, CanWrite, IsFree;
    FreeNotOwned(v, g, cat, q, j);
    DeletedReads(e);
    if Owned(Wrote(v, g, cat, d, i, Deleted(e)), g, cat, q, j) {
      OwnersAfter(v, g, cat, d, i, Deleted(e), q, j);
      assert false;
    }
  }

  lemma CanWriteGood(v: FatVol, g: Geometry, cat: Cat, d: nat, i: nat, e: Entry)
    requires CanWrite(v, g, cat, d, i, e)
    ensures Good(v, g, cat) && d in cat.dirs && Place(v, g, cat, d, i)
  {
    hide Good, NoOther, Owning, EntryOk, Slots;
  }

  lemma FilledMeans(v: FatVol, w: FatVol, g: Geometry, cat: Cat, d: nat, i: nat, e: Entry)
    requires SlotFilled(v, w, g, cat, cat, d, i, e)
    ensures Good(v, g, cat) && Good(w, g, cat) && OthersKept(v, w, g, cat, cat, d, i) && Owned(w, g, cat, d, i)
    ensures SlotsOf(w, g, cat, d)[i] == e && EntryOk(g, cat, e)
  {
    hide ChainsOk, DirsOk, OneOwner, Listable, SlotsOf, Owning, OthersKept;
    OwnedIn(w, g, cat, d, i);
    SwapOwned(w, g, cat, d, i, e);
  }

  lemma ShiftListed(v: FatVol, g: Geometry, cat: Cat, d: nat, i: nat, e: Entry, q: nat, j: nat, name: seq<byte>)
    requires CanShift(v, g, cat, d, i, e, q, j) && Usable(name) && |name| == 11
    requires Place(v, g, cat, d, i) && Place(Wrote(v, g, cat, d, i, Deleted(e)), g, cat, q, j)
    ensures var w := Wrote(Wrote(v, g, cat, d, i, Deleted(e)), g, cat, q, j, Renamed(e, name));
            Listable(w, g, cat, d) && i < |SlotsOf(w, g, cat, d)| && SlotsOf(w, g, cat, d)[i] == Deleted(e)
  {
    hide Good, Owning, SlotWritten, NoOther, EntryOk, Holds, DirSlots, Deleted, Renamed, Usable, CanWrite, SlotsOf,
         Listable;
    ShiftDelete(v, g, cat, d, i, e, q, j);
    ShiftFill(v, g, cat, d, i, e, q, j, name);
    var y := Wrote(v, g, cat, d, i, Deleted(e));
    OwnedIn(v, g, cat, d, i);
    SlotStepDirs(v, g, cat, d, i, Deleted(e), d);
    SlotStepDirs(y, g, cat, q, j, Renamed(e, name), d);
  }

  lemma ShiftOther(v: FatVol, g: Geometry, cat: Cat, d: nat, i: nat, e: Entry, q: nat, j: nat, name: seq<byte>, a: nat,
      b: nat)
    requires CanShift(v, g, cat, d, i, e, q, j) && Usable(name) && |name| == 11 && Owned(v, g, cat, a, b)
             && (a != d || b != i)
    requires Place(v, g, cat, d, i) && Place(Wrote(v, g, cat, d, i, Deleted(e)), g, cat, q, j)
    requires var y := Wrote(v, g, cat, d, i, Deleted(e)); var w := Wrote(y, g, cat, q, j, Renamed(e, name));
             Good(y, g, cat) && Good(w, g, cat) && OthersKept(y, w, g, cat, cat, q, j)
    ensures SlotKept(v, Wrote(Wrote(v, g, cat, d, i, Deleted(e)), g, cat, q, j, Renamed(e, name)), g, cat, cat, a, b)
  {
    hide Good, Owning, SlotWritten, NoOther, EntryOk, Holds, DirSlots, Deleted, Renamed, Usable, CanWrite, SlotsOf,
         Listable, SlotKept;
    ShiftDelete(v, g, cat, d, i, e, q, j);
    var y := Wrote(v, g, cat, d, i, Deleted(e));
    var w := Wrote(y, g, cat, q, j, Renamed(e, name));
    OwnedDir(v, g, cat, a, b);
    OwnedIn(v, g, cat, a, b);
    SlotStepDirs(v, g, cat, d, i, Deleted(e), a);
    FillChainKept(v, g, cat, d, i, Deleted(e), OwnedFirst(v, g, cat, a, b));
    Kept(v, y, g, cat, cat, a, b);
    NotFree(v, g, cat, q, j, a, b);
    KeptOwned(v, y, g, cat, cat, a, b);
    KeptTwice(v, y, w, g, cat, cat, cat, a, b);
  }

  lemma ShiftContents(v: FatVol, g: Geometry, cat: Cat, d: nat, i: nat, e: Entry, q: nat, j: nat, name: seq<byte>)
    requires CanShift(v, g, cat, d, i, e, q, j) && Usable(name) && |name| == 11
    requires Place(v, g, cat, d, i) && Place(Wrote(v, g, cat, d, i, Deleted(e)), g, cat, q, j)
    requires var w := Wrote(Wrote(v, g, cat, d, i, Deleted(e)), g, cat, q, j, Renamed(e, name)); Good(w, g, cat)
    requires EntryOk(g, cat, e) && EntryOk(g, cat, Renamed(e, name))
    ensures !IsDir(e) ==>
              Contents(Wrote(Wrote(v, g, cat, d, i, Deleted(e)), g, cat, q, j, Renamed(e, name)), g, cat,
              Renamed(e, name)) == Contents(v, g, cat, e)
  {
    hide DirsOk, EntriesOk, OneOwner, ChainsOk, Owning, SlotWritten, NoOther, Holds, DirSlots, Deleted, Renamed, Usable,
         CanWrite, SlotsOf, Listable, FirstOf, SizeOf, ChainBytes;
    RenamedReads(e, name);
    if !IsDir(e) && FirstOf(e) != 0 {
      ShiftDelete(v, g, cat, d, i, e, q, j);
      ShiftFill(v, g, cat, d, i, e, q, j, name);
      var y := Wrote(v, g, cat, d, i, Deleted(e));
      var w := Wrote(y, g, cat, q, j, Renamed(e, name));
      var s := cat.chains[FirstOf(e)];
      FillChainKept(v, g, cat, d, i, Deleted(e), FirstOf(e));
      FillChainKept(y, g, cat, q, j, Renamed(e, name), FirstOf(e));
      ChainFits(v, g, cat, FirstOf(e));
      ChainFits(w, g, cat, FirstOf(e));
      SameAlong(v, y, w, s);
      BytesKept(v.data, w.data, s);
    }
  }

  lemma SameAlong(v: FatVol, y: FatVol, w: FatVol, s: seq<nat>)
    requires SameData(v, y, s) && SameData(y, w, s)
    ensures |w.data| == |v.data| && forall k :: 0 <= k < |s| ==> s[k] < |v.data| && w.data[s[k]] == v.data[s[k]]
  {
    forall k | 0 <= k < |s| ensures s[k] < |v.data| && w.data[s[k]] == v.data[s[k]] {
      assert s[k] in s;
    }
  }

  lemma ShiftReady(v: FatVol, w: FatVol, g: Geometry, cat: Cat, cat1: Cat, d: nat, i: nat, e: Entry, q: nat, j: nat)
    requires RoomMade(v, w, g, cat, cat1, q, j) && Owned(v, g, cat, d, i) && SlotsOf(v, g, cat, d)[i] == e
    ensures CanShift(w, g, cat1, d, i, e, q, j) && SlotKept(v, w, g, cat, cat1, d, i)
  {
    hide Good, Listable, SlotsOf, Contents;
    assert SlotKept(v, w, g, cat, cat1, d, i);
  }

  /** Moving after making room keeps what making room kept. */
  lemma MovedAfter(v: FatVol, u: FatVol, w: FatVol, g: Geometry, cat: Cat, cat1: Cat, d: nat, i: nat, q: nat, j: nat,
      name: seq<byte>)
    requires RoomMade(v, u, g, cat, cat1, q, j) && Owned(v, g, cat, d, i)
             && SlotMoved(u, w, g, cat1, cat1, d, i, q, j, name)
    ensures SlotMoved(v, w, g, cat, cat1, d, i, q, j, name)
  {
    hide Listable, SlotsOf, Contents, EntryOk, ChainsOk, DirsOk, OneOwner, Owned;
    assert SlotKept(v, u, g, cat, cat1, d, i);
    OwnedIn(v, g, cat, d, i);
    assert EntryOk(g, cat, SlotsOf(v, g, cat, d)[i]);
    NewTwice(v, u, w, g, cat, cat1, cat1, q, j);
    assert OthersKept(v, w, g, cat, cat1, d, i) by {
      hide Good;
      forall a: nat, b: nat | Owned(v, g, cat, a, b) && (a != d || b != i) ensures SlotKept(v, w, g, cat, cat1, a, b) {
        assert SlotKept(v, u, g, cat, cat1, a, b);
        KeptOwned(v, u, g, cat, cat1, a, b);
        assert SlotKept(u, w, g, cat1, cat1, a, b);
        KeptTwice(v, u, w, g, cat, cat1, cat1, a, b);
      }
    }
  }

  /** The copy, then the deletion mark, move the entry. */
  lemma ShiftWrites(v: FatVol, g: Geometry, cat: Cat, d: nat, i: nat, e: Entry, q: nat, j: nat, name: seq<byte>)
    requires CanShift(v, g, cat, d, i, e, q, j) && Usable(name)
    ensures |name| == 11 && Place(v, g, cat, q, j) && Place(v, g, cat, d, i) && DirOk(v, g, d, ChainOf(cat, d))
            && DirOk(v, g, q, ChainOf(cat, q))
    ensures Place(Wrote(v, g, cat, q, j, Renamed(e, name)), g, cat, d, i)
    ensures SlotMoved(v, Wrote(Wrote(v, g, cat, q, j, Renamed(e, name)), g, cat, d, i, Deleted(e)), g, cat, cat, d, i,
            q, j, name)
  {
    hide Good, CanShift, SlotMoved, Wrote, Place, Walkable, Usable, Deleted, Renamed, DirSlots, Holds, SlotWritten,
         ChainOf;
    UsableSize(name);
    ShiftDone(v, g, cat, d, i, e, q, j, name);
    ShiftPlaces(v, g, cat, d, i, e, q, j);
    WritesCommute(v, g, cat, q, j, Renamed(e, name), d, i, Deleted(e));
  }

  lemma WroteUnfolds(v: FatVol, g: Geometry, cat: Cat, d: nat, i: nat, e: Entry)
    requires Place(v, g, cat, d, i)
    ensures (d == 0 || Holds(v.data, g.per, ChainOf(cat, d))) && i < |DirSlots(v, g, d, ChainOf(cat, d))|
    ensures Wrote(v, g, cat, d, i, e) == SlotWritten(v, g, d, ChainOf(cat, d), i, e)
  {
    hide SlotWritten, DirSlots, Holds, ChainOf;
  }

  lemma ShiftPlaces(v: FatVol, g: Geometry, cat: Cat, d: nat, i: nat, e: Entry, q: nat, j: nat)
    requires CanShift(v, g, cat, d, i, e, q, j)
    ensures ChainsOk(v, g, cat) && Place(v, g, cat, d, i) && Place(v, g, cat, q, j) && (d != q || i != j)
    ensures (d != 0 ==> d in cat.chains) && (q != 0 ==> q in cat.chains)
    ensures DirOk(v, g, d, ChainOf(cat, d)) && DirOk(v, g, q, ChainOf(cat, q))
  {
    hide ChainsOk, EntriesOk, OneOwner, Slots, Owning, Walkable, Chain;
    NotFree(v, g, cat, q, j, d, i);
    OwnedDir(v, g, cat, d, i);
    GoodDir(v, g, cat, d);
    GoodDir(v, g, cat, q);
  }
}
