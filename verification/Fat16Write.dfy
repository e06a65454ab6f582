/**
 * Writing a FAT16 file (fs/fat16.c:679-736): the new chain is complete before the
 * old one is given back, so running out of clusters changes nothing.
 */
module Fat16Write {
  import opened Bytes
  import opened Fat16Table
  import opened Fat16Volume
  import opened Fat16Names
  import opened Fat16Dir
  import opened Fat16Tree
  import opened Fat16

  /** A slot's entry and file are kept when its directory lists the same entry and its chain is untouched. */
  lemma Kept(v: FatVol, w: FatVol, g: Geometry, cat: Cat, cat': Cat, a: nat, b: nat)
    requires Good(v, g, cat) && Good(w, g, cat') && Owned(v, g, cat, a, b)
    requires Listable(w, g, cat', a) && b < |SlotsOf(w, g, cat', a)|
             && SlotsOf(w, g, cat', a)[b] == SlotsOf(v, g, cat, a)[b]
    requires var h := FirstOf(SlotsOf(v, g, cat, a)[b]);
             h != 0 && h !in cat.dirs && h in cat.chains ==>
                 h in cat'.chains && cat'.chains[h] == cat.chains[h] && SameData(v, w, cat.chains[h])
    ensures SlotKept(v, w, g, cat, cat', a, b)
  {
    hide SlotsOf, Listable, Owning, OneOwner, DirsOk, ChainsOk;
    var e := SlotsOf(v, g, cat, a)[b];
    assert EntryOk(g, cat, e);
    OwnedThere(w, v, g, cat', cat, a, b);
    if !IsDir(e) && FirstOf(e) != 0 {
      var s := cat.chains[FirstOf(e)];
      ChainFits(v, g, cat, FirstOf(e));
      ChainFits(w, g, cat', FirstOf(e));
      BytesKept(v.data, w.data, s);
    }
  }

  // ---- nothing taken ----

  /** A write that found no room leaves the table, every directory and every file as they were. */
  lemma UntakenGood(v: FatVol, w: FatVol, g: Geometry, cat: Cat)
    requires Good(v, g, cat) && Untaken(v, w) && Shaped(w, g)
    ensures Good(w, g, cat) && w.fat == v.fat && w.root == v.root
    ensures forall a: nat, b: nat :: Owned(v, g, cat, a, b) ==> SlotKept(v, w, g, cat, cat, a, b)
    ensures NoneAdded(v, w, g, cat, cat)
  {
    hide SlotsOf, Owning, EntryOk, Listable, EndMarked, Chain, Disjoint, SlotKept;
    assert w.fat == v.fat && w.root == v.root && |w.data| == |v.data|;
    forall h | h in cat.chains ensures SameData(v, w, cat.chains[h]) && SameLinks(v, w, cat.chains[h]) {
      UntakenChain(v, w, g, cat, h);
    }
    hide Untaken;
    assert forall x :: x in cat.dirs && x != 0 ==> x in cat.chains by { hide ChainsOk; DirsHaveChains(v, g, cat); }
    ListsStep(v, w, g, cat, cat);
    NewDirsOk(v, w, g, cat, cat);
    assert ChainsOk(w, g, cat) by {
      forall h | h in cat.chains ensures ChainOk(w, g, cat, h) {
        assert ChainOk(v, g, cat, h);
        KeptChain(v, w, g, cat, cat, h);
      }
    }
    forall a: nat, b: nat | Owned(w, g, cat, a, b)
      ensures EntryOk(g, cat, SlotsOf(w, g, cat, a)[b]) && Owned(v, g, cat, a, b)
              && OwnedFirst(w, g, cat, a, b) == OwnedFirst(v, g, cat, a, b)
    {
      OwnedDir(w, g, cat, a, b);
      OwnersSame(v, w, g, cat, cat, a, b);
    }
    forall a: nat, b: nat | Owned(v, g, cat, a, b) ensures SlotKept(v, w, g, cat, cat, a, b) {
      OwnedDir(v, g, cat, a, b);
      OwnedIn(v, g, cat, a, b);
      Kept(v, w, g, cat, cat, a, b);
    }
  }

  lemma OwnedIn(v: FatVol, g: Geometry, cat: Cat, a: nat, b: nat)
    requires Owned(v, g, cat, a, b)
    ensures Listable(v, g, cat, a) && b < |SlotsOf(v, g, cat, a)| && Owning(SlotsOf(v, g, cat, a)[b])
  {
    hide Listable, SlotsOf, Owning;
  }

  lemma UntakenChain(v: FatVol, w: FatVol, g: Geometry, cat: Cat, h: nat)
    requires ChainsOk(v, g, cat) && Untaken(v, w) && h in cat.chains
    ensures SameData(v, w, cat.chains[h]) && SameLinks(v, w, cat.chains[h])
  {
    hide Chain;
    assert ChainOk(v, g, cat, h);
    forall x | x in cat.chains[h] ensures x < TABLE && x < |v.data| && w.data[x] == v.data[x] {
      ChainUsed(v.fat, g.max, cat.chains[h], x);
    }
  }

  // ---- the swap ----

  /** The entry the write leaves in the slot. */
  function Rewritten(e: Entry, first: nat, size: nat): Entry
    requires first < 0x1_0000_0000 && size < 0x1_0000_0000
  {
    Pointing(e, ARCHIVE, first, size)
  }

  lemma RewrittenOwning(e: Entry, first: nat, size: nat)
    requires Owning(e) && first < 0x1_0000_0000 && size < 0x1_0000_0000
    ensures var r := Rewritten(e, first, size);
            Owning(r) && !IsDir(r) && FirstOf(r) == first && SizeOf(r) == size && r[0] == e[0] && r[0] != UNUSED
  {
    hide DotName, Pointing, FirstOf, SizeOf;
    PointingReads(e, ARCHIVE, first, size);
  }

  /** Slot (d, i) is a file; its old entry is e. */
  ghost predicate FileAt(v: FatVol, g: Geometry, cat: Cat, d: nat, i: nat, e: Entry) {
    Good(v, g, cat) && Owned(v, g, cat, d, i) && SlotsOf(v, g, cat, d)[i] == e && !IsDir(e)
  }

  /** Slots before one in use are in use or deleted. */
  lemma UsedBefore(slots: seq<Entry>, i: nat)
    requires EndMarked(slots) && i < |slots| && slots[i][0] != UNUSED
    ensures forall j :: 0 <= j < i ==> slots[j][0] != UNUSED
  {
  }

  /** Pointing the slot at a chain nobody owns (or at none). */
  lemma Repoint(v: FatVol, g: Geometry, cat: Cat, d: nat, i: nat, e: Entry, first: nat, size: nat)
    requires FileAt(v, g, cat, d, i, e) && first < 0x1_0000_0000 && size < 0x1_0000_0000
    requires first == 0 ==> size == 0
    requires first != 0 ==>
               first in cat.chains && first !in cat.dirs && size <= |cat.chains[first]| * g.Size()
               && NoOther(v, g, cat, d, i, first)
    ensures CanWrite(v, g, cat, d, i, Rewritten(e, first, size))
  {
    hide ChainsOk, EntriesOk, OneOwner, DirsOk, SlotsOf, Listable, NoOther, Owning, Rewritten, EndMarked;
    OwnedIn(v, g, cat, d, i);
    OwnedDir(v, g, cat, d, i);
    GoodDir(v, g, cat, d);
    OwningUsed(e);
    UsedBefore(SlotsOf(v, g, cat, d), i);
    RewrittenOwning(e, first, size);
  }

  lemma OwningUsed(e: Entry)
    requires Owning(e)
    ensures e[0] != UNUSED
  {
    hide DotName;
  }

  /** Owners after a slot was rewritten. */
  lemma OwnersAfter(v: FatVol, g: Geometry, cat: Cat, d: nat, i: nat, e: Entry, a: nat, b: nat)
    requires CanWrite(v, g, cat, d, i, e) && (d == 0 || Holds(v.data, g.per, ChainOf(cat, d)))
             && i < |DirSlots(v, g, d, ChainOf(cat, d))|
    requires Owned(SlotWritten(v, g, d, ChainOf(cat, d), i, e), g, cat, a, b)
    ensures var w := SlotWritten(v, g, d, ChainOf(cat, d), i, e);
            if a == d && b == i then Owning(e) && OwnedFirst(w, g, cat, a, b) == FirstOf(e)
            else Owned(v, g, cat, a, b) && OwnedFirst(w, g, cat, a, b) == OwnedFirst(v, g, cat, a, b)
  {
    hide Good, SlotsOf, Listable, Owning, SlotWritten, NoOther, EntryOk, Holds, DirSlots;
    OwnedDir(SlotWritten(v, g, d, ChainOf(cat, d), i, e), g, cat, a, b);
    OwnedIn(SlotWritten(v, g, d, ChainOf(cat, d), i, e), g, cat, a, b);
    SlotStepDirs(v, g, cat, d, i, e, a);
    if a != d || b != i {
      OwnedThere(v, SlotWritten(v, g, d, ChainOf(cat, d), i, e), g, cat, cat, a, b);
    }
  }

  /** Nobody else owns the file's old chain. */
  lemma SoleOwner(v: FatVol, g: Geometry, cat: Cat, d: nat, i: nat)
    requires Good(v, g, cat) && Owned(v, g, cat, d, i)
    ensures OwnedFirst(v, g, cat, d, i) != 0 ==> NoOther(v, g, cat, d, i, OwnedFirst(v, g, cat, d, i))
  {
    hide ChainsOk, DirsOk, EntriesOk, Owned, OwnedFirst;
  }

  /** The volume after the slot was repointed and the old chain freed (f is the table then). */
  ghost function Swapped(v: FatVol, g: Geometry, cat: Cat, d: nat, i: nat, e': Entry, f: seq<nat>): FatVol
    requires (d == 0 || Holds(v.data, g.per, ChainOf(cat, d))) && i < |DirSlots(v, g, d, ChainOf(cat, d))|
  {
    SlotWritten(v, g, d, ChainOf(cat, d), i, e').(fat := f)
  }

  ghost function AfterSwap(cat: Cat, h: nat): Cat {
    if h == 0 then cat else WithoutChain(cat, h)
  }

  /** The table once chain h, if any, is free. */
  ghost predicate Released(v: FatVol, cat: Cat, h: nat, f: seq<nat>) {
    if h == 0 then f == v.fat else h in cat.chains && FreedAs(v.fat, f, cat.chains[h])
  }

  /** No slot of directory h owns anything. */
  ghost predicate OwnsNothing(v: FatVol, g: Geometry, cat: Cat, h: nat) {
    forall b: nat :: !Owned(v, g, cat, h, b)
  }

  /** Slot (d, i), whose entry is e, may be replaced: a file, or a directory that owns nothing. */
  ghost predicate Removable(v: FatVol, g: Geometry, cat: Cat, d: nat, i: nat, e: Entry) {
    && Good(v, g, cat) && Owned(v, g, cat, d, i) && SlotsOf(v, g, cat, d)[i] == e
    && (IsDir(e) ==> OwnsNothing(v, g, cat, FirstOf(e)))
  }

  lemma RemovableMeans(v: FatVol, g: Geometry, cat: Cat, d: nat, i: nat, e: Entry)
    requires Removable(v, g, cat, d, i, e)
    ensures Good(v, g, cat) && Owned(v, g, cat, d, i) && OwnedFirst(v, g, cat, d, i) == FirstOf(e) && EntryOk(g, cat, e)
            && d in cat.dirs
    ensures Listable(v, g, cat, d) && i < |SlotsOf(v, g, cat, d)| && SlotsOf(v, g, cat, d)[i] == e && Owning(e)
    ensures FirstOf(e) != 0 ==> FirstOf(e) in cat.chains
    ensures FirstOf(e) in cat.dirs && FirstOf(e) != 0 ==> IsDir(e) && FirstOf(e) != d
  {
    hide ChainsOk, DirsOk, OneOwner, SlotsOf, Listable, Owning;
    OwnedDir(v, g, cat, d, i);
  }

  lemma FileRemovable(v: FatVol, g: Geometry, cat: Cat, d: nat, i: nat, e: Entry)
    requires FileAt(v, g, cat, d, i, e)
    ensures Removable(v, g, cat, d, i, e)
  {
    hide Good, Owned, SlotsOf;
  }

  lemma NotInside(v: FatVol, g: Geometry, cat: Cat, d: nat, i: nat, e: Entry, a: nat, b: nat)
    requires Removable(v, g, cat, d, i, e) && Owned(v, g, cat, a, b) && FirstOf(e) != 0
    ensures a != FirstOf(e)
  {
    hide SlotsOf, Listable, Owning, Owned;
    RemovableMeans(v, g, cat, d, i, e);
    OwnedDir(v, g, cat, a, b);
  }

  lemma SwapGood(v: FatVol, g: Geometry, cat: Cat, d: nat, i: nat, e: Entry, e': Entry, f: seq<nat>)
    requires Removable(v, g, cat, d, i, e) && CanWrite(v, g, cat, d, i, e') && Released(v, cat, FirstOf(e), f)
    requires FirstOf(e) != 0 ==> !Owning(e') || FirstOf(e') != FirstOf(e)
    ensures (d == 0 || Holds(v.data, g.per, ChainOf(cat, d))) && i < |DirSlots(v, g, d, ChainOf(cat, d))|
    ensures Good(Swapped(v, g, cat, d, i, e', f), g, AfterSwap(cat, FirstOf(e)))
  {
    hide SlotsOf, Listable, Owning, SlotWritten, NoOther, EntryOk, Holds, DirSlots, Good, FreedAs, Removable, CanWrite,
         Owned, OwnedFirst;
    RemovableMeans(v, g, cat, d, i, e);
    SlotStep(v, g, cat, d, i, e');
    var u := SlotWritten(v, g, d, ChainOf(cat, d), i, e');
    var h := FirstOf(e);
    WriteKeepsTable(v, g, cat, d, i, e');
    SoleOwner(v, g, cat, d, i);
    if h != 0 {
      forall a: nat, b: nat | Owned(u, g, cat, a, b) ensures OwnedFirst(u, g, cat, a, b) != h && a != h {
        OwnersAfter(v, g, cat, d, i, e', a, b);
        OwnedDir(u, g, cat, a, b);
        OtherFirst(v, g, cat, d, i, h, a, b);
        if a != d || b != i {
          NotInside(v, g, cat, d, i, e, a, b);
        }
      }
      DropChain(u, f, g, cat, h);
    } else {
      assert u.(fat := f) == u;
    }
  }

  lemma OtherFirst(v: FatVol, g: Geometry, cat: Cat, d: nat, i: nat, h: nat, a: nat, b: nat)
    requires NoOther(v, g, cat, d, i, h)
    ensures Owned(v, g, cat, a, b) && (a != d || b != i) ==> OwnedFirst(v, g, cat, a, b) != h
  {
    hide Owned, OwnedFirst;
  }

  lemma WriteKeepsTable(v: FatVol, g: Geometry, cat: Cat, d: nat, i: nat, e: Entry)
    requires (d == 0 || Holds(v.data, g.per, ChainOf(cat, d))) && i < |DirSlots(v, g, d, ChainOf(cat, d))|
    ensures SlotWritten(v, g, d, ChainOf(cat, d), i, e).fat == v.fat
  {
    hide Put, Slots, Slot, Holds, ChainOf, DirSlots;
  }

  /** A file's chain is not a directory. */
  lemma FileNotDir(v: FatVol, g: Geometry, cat: Cat, d: nat, i: nat, e: Entry)
    requires FileAt(v, g, cat, d, i, e)
    ensures OwnedFirst(v, g, cat, d, i) == FirstOf(e) && EntryOk(g, cat, e)
    ensures FirstOf(e) != 0 ==> FirstOf(e) in cat.chains && FirstOf(e) !in cat.dirs
  {
    hide ChainsOk, DirsOk, OneOwner, SlotsOf, Owning, Listable;
  }

  lemma SwapKeeps(v: FatVol, g: Geometry, cat: Cat, d: nat, i: nat, e: Entry, e': Entry, f: seq<nat>, a: nat, b: nat)
    requires Removable(v, g, cat, d, i, e) && CanWrite(v, g, cat, d, i, e') && Released(v, cat, FirstOf(e), f)
    requires FirstOf(e) != 0 ==> !Owning(e') || FirstOf(e') != FirstOf(e)
    requires Owned(v, g, cat, a, b) && (a != d || b != i)
    ensures (d == 0 || Holds(v.data, g.per, ChainOf(cat, d))) && i < |DirSlots(v, g, d, ChainOf(cat, d))|
    ensures Good(Swapped(v, g, cat, d, i, e', f), g, AfterSwap(cat, FirstOf(e)))
    ensures SlotKept(v, Swapped(v, g, cat, d, i, e', f), g, cat, AfterSwap(cat, FirstOf(e)), a, b)
  {
    hide SlotsOf, Owning, SlotWritten, NoOther, Good, FreedAs, EntryOk, Holds, DirSlots, SlotKept, Listable, Removable,
         CanWrite;
    RemovableMeans(v, g, cat, d, i, e);
    SwapGood(v, g, cat, d, i, e, e', f);
    var w, cat' := Swapped(v, g, cat, d, i, e', f), AfterSwap(cat, FirstOf(e));
    OwnedDir(v, g, cat, a, b);
    OwnedIn(v, g, cat, a, b);
    if FirstOf(e) != 0 {
      NotInside(v, g, cat, d, i, e, a, b);
    }
    SwapLists(v, g, cat, d, i, e, e', f, a);
    SwapChain(v, g, cat, d, i, e, e', f, a, b);
    Kept(v, w, g, cat, cat', a, b);
  }

  /** Listings after the swap: only slot i of d differs. */
  lemma SwapLists(v: FatVol, g: Geometry, cat: Cat, d: nat, i: nat, e: Entry, e': Entry, f: seq<nat>, a: nat)
    requires Removable(v, g, cat, d, i, e) && CanWrite(v, g, cat, d, i, e') && a in cat.dirs
             && (FirstOf(e) == 0 || a != FirstOf(e))
    ensures (d == 0 || Holds(v.data, g.per, ChainOf(cat, d))) && i < |DirSlots(v, g, d, ChainOf(cat, d))|
    ensures var w, cat' := Swapped(v, g, cat, d, i, e', f), AfterSwap(cat, FirstOf(e));
            && Listable(v, g, cat, a) && Listable(w, g, cat', a)
            && SlotsOf(w, g, cat', a) == if a == d then SlotsOf(v, g, cat, a)[i := e'] else SlotsOf(v, g, cat, a)
  {
    hide Owning, SlotWritten, NoOther, Good, EntryOk, Holds, Slots, Removable, CanWrite;
    SlotStepDirs(v, g, cat, d, i, e', a);
  }

  /** No slot but (d, i) starts to own anything. */
  lemma SwapAdds(v: FatVol, g: Geometry, cat: Cat, d: nat, i: nat, e: Entry, e': Entry, f: seq<nat>)
    requires Removable(v, g, cat, d, i, e) && CanWrite(v, g, cat, d, i, e')
    ensures (d == 0 || Holds(v.data, g.per, ChainOf(cat, d))) && i < |DirSlots(v, g, d, ChainOf(cat, d))|
    ensures NoneNew(v, Swapped(v, g, cat, d, i, e', f), g, cat, AfterSwap(cat, FirstOf(e)), d, i)
  {
    hide SlotsOf, Owning, Good, EntryOk, Holds, DirSlots, Listable, Removable, CanWrite, Swapped, Owned, FirstOf;
    RemovableMeans(v, g, cat, d, i, e);
    SwapLists(v, g, cat, d, i, e, e', f, d);
    var w, cat' := Swapped(v, g, cat, d, i, e', f), AfterSwap(cat, FirstOf(e));
    forall a: nat, b: nat | Owned(w, g, cat', a, b) && (a != d || b != i) ensures Owned(v, g, cat, a, b) {
      OwnedDir(w, g, cat', a, b);
      OwnedIn(w, g, cat', a, b);
      SwapLists(v, g, cat, d, i, e, e', f, a);
      OwnedThere(v, w, g, cat, cat', a, b);
    }
  }

  /** The chain of another file survives the swap untouched. */
  lemma SwapChain(v: FatVol, g: Geometry, cat: Cat, d: nat, i: nat, e: Entry, e': Entry, f: seq<nat>, a: nat, b: nat)
    requires Removable(v, g, cat, d, i, e) && CanWrite(v, g, cat, d, i, e') && Owned(v, g, cat, a, b)
             && (a != d || b != i)
    ensures (d == 0 || Holds(v.data, g.per, ChainOf(cat, d))) && i < |DirSlots(v, g, d, ChainOf(cat, d))|
    ensures var h, w, cat' := OwnedFirst(v, g, cat, a, b), Swapped(v, g, cat, d, i, e', f), AfterSwap(cat, FirstOf(e));
            h != 0 && h !in cat.dirs && h in cat.chains ==>
                h in cat'.chains && cat'.chains[h] == cat.chains[h] && SameData(v, w, cat.chains[h])
  {
    hide Owning, SlotWritten, EntryOk, Holds, SlotsOf, DirSlots, Listable, Chain, Removable, CanWrite, NoOther, Owned,
         OwnedFirst;
    RemovableMeans(v, g, cat, d, i, e);
    SlotStep(v, g, cat, d, i, e');
    var h := OwnedFirst(v, g, cat, a, b);
    SoleOwner(v, g, cat, d, i);
    if h != 0 && h !in cat.dirs && h in cat.chains {
      assert ChainOk(v, g, cat, h);
      FileApart(v, g, cat, d, h);
      var w := Swapped(v, g, cat, d, i, e', f);
      WrittenSize(v, g, cat, d, i, e');
      forall c | c in cat.chains[h] ensures c < |v.data| && w.data[c] == v.data[c] {
        ChainUsed(v.fat, g.max, cat.chains[h], c);
      }
      if FirstOf(e) != 0 {
        OtherFirst(v, g, cat, d, i, FirstOf(e), a, b);
      }
    }
  }

  lemma WrittenSize(v: FatVol, g: Geometry, cat: Cat, d: nat, i: nat, e: Entry)
    requires (d == 0 || Holds(v.data, g.per, ChainOf(cat, d))) && i < |DirSlots(v, g, d, ChainOf(cat, d))|
    ensures |SlotWritten(v, g, d, ChainOf(cat, d), i, e).data| == |v.data|
  {
    hide Put, Slots, Slot, ChainOf;
    if d != 0 {
      SlotPlace(g.per, |ChainOf(cat, d)|, i);
    }
  }

  /** A chain that is not a directory shares no cluster with directory d. */
  lemma FileApart(v: FatVol, g: Geometry, cat: Cat, d: nat, h: nat)
    requires ChainsOk(v, g, cat) && d in cat.dirs && h in cat.chains && h !in cat.dirs
    ensures forall c :: c in cat.chains[h] ==> c !in ChainOf(cat, d)
  {
    hide Chain;
    if d in cat.chains {
      assert Disjoint(cat.chains[h], cat.chains[d]);
    }
  }

  // ---- writing ----

  /** The file in slot (d, i) now holds the bytes; every other entry and file is kept. */
  ghost predicate FileReplaced(v: FatVol, w: FatVol, g: Geometry, cat: Cat, cat': Cat, d: nat, i: nat,
      bytes: seq<byte>) {
    && Good(v, g, cat) && Owned(v, g, cat, d, i)
    && Good(w, g, cat') && Owned(w, g, cat', d, i) && OthersKept(v, w, g, cat, cat', d, i)
    && NoneNew(v, w, g, cat, cat', d, i)
    && var e, e' := SlotsOf(v, g, cat, d)[i], SlotsOf(w, g, cat', d)[i];
       && !IsDir(e) && !IsDir(e') && NameOf(e') == NameOf(e) && EntryOk(g, cat', e')
       && Contents(w, g, cat', e') == bytes
  }

  /** The catalog once the new chain, if any, is there. */
  ghost function Holding(cat: Cat, s: seq<nat>): Cat {
    if s == [] then cat else WithChain(cat, s)
  }

  /** What write_new_chain left: the bytes in a chain nobody owns, or nothing for no bytes. */
  ghost predicate Ready(v: FatVol, u: FatVol, g: Geometry, cat: Cat, s: seq<nat>, bytes: seq<byte>) {
    && Good(v, g, cat) && Shaped(u, g)
    && if bytes == [] then s == [] && u == v else s != [] && NewChain(v, u, g, s, bytes)
  }

  ghost function Head(s: seq<nat>): nat { if s == [] then 0 else s[0] }

  lemma ReadyGood(v: FatVol, u: FatVol, g: Geometry, cat: Cat, d: nat, i: nat, e: Entry, s: seq<nat>, bytes: seq<byte>)
    requires Ready(v, u, g, cat, s, bytes) && FileAt(v, g, cat, d, i, e) && |bytes| < 0x1_0000_0000
    ensures Head(s) < TABLE && FileAt(u, g, Holding(cat, s), d, i, e)
            && CanWrite(u, g, Holding(cat, s), d, i, Rewritten(e, Head(s), |bytes|))
    ensures FirstOf(e) != 0 ==>
              FirstOf(e) != Head(s) && FirstOf(e) in cat.chains && FirstOf(e) in Holding(cat, s).chains
    ensures FirstOf(e) != 0 ==> Holding(cat, s).chains[FirstOf(e)] == cat.chains[FirstOf(e)]
    ensures s != [] ==> s[0] !in cat.dirs
    ensures forall a: nat, b: nat :: Owned(v, g, cat, a, b) ==> SlotKept(v, u, g, cat, Holding(cat, s), a, b)
    ensures NoneAdded(v, u, g, cat, Holding(cat, s))
  {
    hide SlotsOf, Owning, Good, EntryOk, Listable, NoOther, Taking, Chain, SlotKept;
    FileNotDir(v, g, cat, d, i, e);
    if s == [] {
      Repoint(v, g, cat, d, i, e, 0, 0);
      forall a: nat, b: nat | Owned(v, g, cat, a, b) ensures SlotKept(v, u, g, cat, cat, a, b) {
        KeptItself(v, g, cat, a, b);
      }
    } else {
      AddChain(v, u, g, cat, s);
      AddAdds(v, u, g, cat, s);
      NewHead(v, u, g, s, bytes);
      var cat1 := WithChain(cat, s);
      forall a: nat, b: nat | Owned(v, g, cat, a, b)
        ensures SlotKept(v, u, g, cat, cat1, a, b) && Owned(u, g, cat1, a, b)
                && SlotsOf(u, g, cat1, a)[b] == SlotsOf(v, g, cat, a)[b]
      {
        AddKeeps(v, u, g, cat, s, a, b);
      }
      assert FileAt(u, g, cat1, d, i, e);
      assert NoOther(u, g, cat1, d, i, s[0]) by { AllOther(u, g, cat1, d, i, s[0]); }
      Repoint(u, g, cat1, d, i, e, s[0], |bytes|);
    }
  }

  lemma AllOther(v: FatVol, g: Geometry, cat: Cat, d: nat, i: nat, h: nat)
    requires forall a: nat, b: nat :: Owned(v, g, cat, a, b) ==> OwnedFirst(v, g, cat, a, b) != h
    ensures NoOther(v, g, cat, d, i, h)
  {
    hide Owned, OwnedFirst;
  }

  lemma NewHead(v: FatVol, u: FatVol, g: Geometry, s: seq<nat>, bytes: seq<byte>)
    requires NewChain(v, u, g, s, bytes) && s != []
    ensures 0 < s[0] < TABLE && |bytes| <= |s| * g.Size()
  {
    ChainSome(u.fat, g.max, s);
  }

  lemma KeptItself(v: FatVol, g: Geometry, cat: Cat, a: nat, b: nat)
    requires Good(v, g, cat) && Owned(v, g, cat, a, b)
    ensures SlotKept(v, v, g, cat, cat, a, b)
  {
    hide ChainsOk, DirsOk, OneOwner, SlotsOf, Listable, Owning;
  }

  lemma AddKeeps(v: FatVol, u: FatVol, g: Geometry, cat: Cat, s: seq<nat>, a: nat, b: nat)
    requires Good(v, g, cat) && s != [] && s[0] !in cat.chains && Good(u, g, WithChain(cat, s))
             && SameLists(v, u, g, cat, WithChain(cat, s))
    requires forall h :: h in cat.chains ==> SameData(v, u, cat.chains[h])
    requires Owned(v, g, cat, a, b)
    ensures SlotKept(v, u, g, cat, WithChain(cat, s), a, b)
    ensures Owned(u, g, WithChain(cat, s), a, b) && SlotsOf(u, g, WithChain(cat, s), a)[b] == SlotsOf(v, g, cat, a)[b]
  {
    hide Good, SlotsOf, Listable, Owning, Owned;
    OwnedDir(v, g, cat, a, b);
    OwnedIn(v, g, cat, a, b);
    Kept(v, u, g, cat, WithChain(cat, s), a, b);
  }

  /** A chain nobody owns gives no slot a new owner. */
  lemma AddAdds(v: FatVol, u: FatVol, g: Geometry, cat: Cat, s: seq<nat>)
    requires s != [] && SameLists(v, u, g, cat, WithChain(cat, s))
    ensures NoneAdded(v, u, g, cat, WithChain(cat, s))
  {
    hide SlotsOf, Listable, Owning, Owned, SameLists;
    forall a: nat, b: nat | Owned(u, g, WithChain(cat, s), a, b) ensures Owned(v, g, cat, a, b) {
      OwnedDir(u, g, WithChain(cat, s), a, b);
      OwnersSame(v, u, g, cat, WithChain(cat, s), a, b);
    }
  }

  lemma NewTwice(v: FatVol, u: FatVol, w: FatVol, g: Geometry, cat: Cat, cat1: Cat, cat2: Cat, d: nat, i: nat)
    requires NoneAdded(v, u, g, cat, cat1) && NoneNew(u, w, g, cat1, cat2, d, i)
    ensures NoneNew(v, w, g, cat, cat2, d, i)
  {
    hide Owned;
  }

  lemma KeptTwice(v: FatVol, u: FatVol, w: FatVol, g: Geometry, cat: Cat, cat1: Cat, cat2: Cat, a: nat, b: nat)
    requires Good(v, g, cat) && Good(u, g, cat1) && Good(w, g, cat2) && Owned(v, g, cat, a, b)
    requires SlotKept(v, u, g, cat, cat1, a, b) && SlotKept(u, w, g, cat1, cat2, a, b)
    ensures SlotKept(v, w, g, cat, cat2, a, b)
  {
    hide Good, SlotsOf, Owned, Contents;
  }

  lemma Replaced(v: FatVol, u: FatVol, g: Geometry, cat: Cat, d: nat, i: nat, e: Entry, s: seq<nat>, bytes: seq<byte>,
      f: seq<nat>)
    requires Ready(v, u, g, cat, s, bytes) && FileAt(v, g, cat, d, i, e) && |bytes| < 0x1_0000_0000 && Head(s) < TABLE
    requires Released(u, Holding(cat, s), FirstOf(e), f)
    requires (d == 0 || Holds(u.data, g.per, ChainOf(Holding(cat, s), d)))
             && i < |DirSlots(u, g, d, ChainOf(Holding(cat, s), d))|
    ensures FileReplaced(v, Swapped(u, g, Holding(cat, s), d, i, Rewritten(e, Head(s), |bytes|), f), g, cat,
                         AfterSwap(Holding(cat, s), FirstOf(e)), d, i, bytes)
  {
    hide SlotsOf, Owning, Good, EntryOk, Listable, NoOther, NewChain, Chain, SlotKept, Owned, Holds, DirSlots, CanWrite,
         Released, Swapped, Contents, FileAt;
    ReadyGood(v, u, g, cat, d, i, e, s, bytes);
    var cat1, e' := Holding(cat, s), Rewritten(e, Head(s), |bytes|);
    FileAtMeans(v, g, cat, d, i, e);
    FileAtMeans(u, g, cat1, d, i, e);
    RewrittenOwning(e, Head(s), |bytes|);
    PointingReads(e, ARCHIVE, Head(s), |bytes|);
    FileRemovable(u, g, cat1, d, i, e);
    FileNotDir(u, g, cat1, d, i, e);
    SwapGood(u, g, cat1, d, i, e, e', f);
    var w, cat2 := Swapped(u, g, cat1, d, i, e', f), AfterSwap(cat1, FirstOf(e));
    forall a: nat, b: nat | Owned(v, g, cat, a, b) && (a != d || b != i) ensures SlotKept(v, w, g, cat, cat2, a, b) {
      KeptOwned(v, u, g, cat, cat1, a, b);
      SwapKeeps(u, g, cat1, d, i, e, e', f, a, b);
      KeptTwice(v, u, w, g, cat, cat1, cat2, a, b);
    }
    SwapAdds(u, g, cat1, d, i, e, e', f);
    NewTwice(v, u, w, g, cat, cat1, cat2, d, i);
    SwapLists(u, g, cat1, d, i, e, e', f, d);
    SwapOwned(w, g, cat2, d, i, e');
    GoodChains(w, g, cat2);
    NewContents(v, u, w, g, cat, d, i, e, s, bytes, f);
  }

  lemma GoodChains(v: FatVol, g: Geometry, cat: Cat)
    requires Good(v, g, cat)
    ensures ChainsOk(v, g, cat)
  {
    hide ChainsOk, DirsOk, EntriesOk, OneOwner;
  }

  lemma KeptOwned(v: FatVol, u: FatVol, g: Geometry, cat: Cat, cat1: Cat, a: nat, b: nat)
    requires Good(v, g, cat) && Good(u, g, cat1) && Owned(v, g, cat, a, b) && SlotKept(v, u, g, cat, cat1, a, b)
    ensures Owned(u, g, cat1, a, b)
  {
    hide Good, SlotsOf, Owned, Contents;
  }

  lemma FileAtMeans(v: FatVol, g: Geometry, cat: Cat, d: nat, i: nat, e: Entry)
    requires FileAt(v, g, cat, d, i, e)
    ensures Good(v, g, cat) && Owned(v, g, cat, d, i) && SlotsOf(v, g, cat, d)[i] == e && Owning(e) && d in cat.dirs
    ensures Listable(v, g, cat, d) && i < |SlotsOf(v, g, cat, d)| && !IsDir(e)
  {
    hide Good, Listable, SlotsOf, Owning;
    OwnedDir(v, g, cat, d, i);
  }

  lemma SwapOwned(w: FatVol, g: Geometry, cat: Cat, d: nat, i: nat, e: Entry)
    requires Good(w, g, cat) && Listable(w, g, cat, d) && i < |SlotsOf(w, g, cat, d)| && SlotsOf(w, g, cat, d)[i] == e
             && Owning(e)
    ensures Owned(w, g, cat, d, i) && EntryOk(g, cat, e)
  {
    hide ChainsOk, DirsOk, OneOwner, SlotsOf, Listable, Owning;
    assert Owned(w, g, cat, d, i);
  }

  lemma NewContents(v: FatVol, u: FatVol, w: FatVol, g: Geometry, cat: Cat, d: nat, i: nat, e: Entry, s: seq<nat>,
      bytes: seq<byte>, f: seq<nat>)
    requires Ready(v, u, g, cat, s, bytes) && FileAt(v, g, cat, d, i, e) && |bytes| < 0x1_0000_0000 && Head(s) < TABLE
    requires (d == 0 || Holds(u.data, g.per, ChainOf(Holding(cat, s), d)))
             && i < |DirSlots(u, g, d, ChainOf(Holding(cat, s), d))|
    requires w == Swapped(u, g, Holding(cat, s), d, i, Rewritten(e, Head(s), |bytes|), f)
    requires ChainsOk(w, g, AfterSwap(Holding(cat, s), FirstOf(e)))
             && EntryOk(g, AfterSwap(Holding(cat, s), FirstOf(e)), Rewritten(e, Head(s), |bytes|))
    ensures Contents(w, g, AfterSwap(Holding(cat, s), FirstOf(e)), Rewritten(e, Head(s), |bytes|)) == bytes
  {
    hide SlotsOf, Owning, Good, Listable, NoOther, Chain, Owned, Holds, DirSlots, ChainsOk, Swapped, Taking, ChainBytes,
         Rewritten, EntryOk;
    RewrittenIs(v, g, cat, d, i, e, Head(s), |bytes|);
    if s != [] {
      var cat1, cat2 := Holding(cat, s), AfterSwap(Holding(cat, s), FirstOf(e));
      ReadyGood(v, u, g, cat, d, i, e, s, bytes);
      NewHead(v, u, g, s, bytes);
      assert cat1.chains[s[0]] == s && s[0] in cat2.chains && cat2.chains[s[0]] == s;
      ChainFits(w, g, cat2, s[0]);
      NewDataKept(u, w, g, cat1, d, i, Rewritten(e, s[0], |bytes|), f, s);
      BytesKept(u.data, w.data, s);
    }
  }

  lemma RewrittenIs(v: FatVol, g: Geometry, cat: Cat, d: nat, i: nat, e: Entry, first: nat, size: nat)
    requires FileAt(v, g, cat, d, i, e) && first < 0x1_0000_0000 && size < 0x1_0000_0000
    ensures FirstOf(Rewritten(e, first, size)) == first && SizeOf(Rewritten(e, first, size)) == size
  {
    hide FirstOf, SizeOf, Pointing;
    PointingReads(e, ARCHIVE, first, size);
  }

  lemma NewDataKept(u: FatVol, w: FatVol, g: Geometry, cat: Cat, d: nat, i: nat, e': Entry, f: seq<nat>, s: seq<nat>)
    requires CanWrite(u, g, cat, d, i, e') && s != [] && s[0] in cat.chains && cat.chains[s[0]] == s
             && s[0] !in cat.dirs
    requires (d == 0 || Holds(u.data, g.per, ChainOf(cat, d))) && i < |DirSlots(u, g, d, ChainOf(cat, d))|
    requires w == Swapped(u, g, cat, d, i, e', f)
    ensures SameData(u, w, s) && forall k :: 0 <= k < |s| ==>
              s[k] < |u.data| && s[k] < |w.data| && w.data[s[k]] == u.data[s[k]]
  {
    hide Owning, SlotWritten, EntryOk, Holds, SlotsOf, DirSlots, Listable, Chain, NoOther;
    SlotStep(u, g, cat, d, i, e');
    assert ChainOk(u, g, cat, s[0]);
    FileApart(u, g, cat, d, s[0]);
    WrittenSize(u, g, cat, d, i, e');
    forall c | c in s ensures c < |u.data| && w.data[c] == u.data[c] {
      ChainUsed(u.fat, g.max, s, c);
    }
    forall k | 0 <= k < |s| ensures s[k] < |u.data| && w.data[s[k]] == u.data[s[k]] {
      assert s[k] in s;
    }
  }

  /** Freeing an entry's chain frees exactly its clusters and leaves directory d walkable. */
  lemma FreeStep(u: FatVol, g: Geometry, cat: Cat, d: nat, i: nat, e: Entry)
    requires Removable(u, g, cat, d, i, e) && FirstOf(e) != 0
    ensures Released(u, cat, FirstOf(e), FreeFrom(u.fat, FirstOf(e)))
    ensures DirOk(u.(fat := FreeFrom(u.fat, FirstOf(e))), g, d, ChainOf(cat, d))
  {
    hide Chain, FreeFrom, SlotsOf, EntriesOk, OneOwner, EntryOk, Owned, FirstOf, Removable, OwnedFirst;
    RemovableMeans(u, g, cat, d, i, e);
    var h := FirstOf(e);
    var s := cat.chains[h];
    ChainFits(u, g, cat, h);
    assert s[..0] == [];
    FreedNothing(u.fat, g.max, s);
    FreeFromChain(u.fat, u.fat, g.max, s, 0);
    DropChainsOk(u, FreeFrom(u.fat, h), g, cat, h);
    GoodDir(u, g, cat, d);
    if d != 0 {
      assert d != h;
      assert ChainOk(u.(fat := FreeFrom(u.fat, h)), g, WithoutChain(cat, h), d);
    }
  }

  lemma FreedNothing(f: seq<nat>, max: nat, s: seq<nat>)
    requires Chain(f, max, s)
    ensures FreedAs(f, f, []) && s != []
  {
  }

  /** Writing the slot before or after the table changes is the same. */
  lemma SwapIs(u: FatVol, g: Geometry, cat: Cat, d: nat, i: nat, e': Entry, f: seq<nat>)
    requires (d == 0 || Holds(u.data, g.per, ChainOf(cat, d))) && i < |DirSlots(u, g, d, ChainOf(cat, d))|
    ensures (d == 0 || Holds(u.(fat := f).data, g.per, ChainOf(cat, d)))
            && DirSlots(u.(fat := f), g, d, ChainOf(cat, d)) == DirSlots(u, g, d, ChainOf(cat, d))
    ensures SlotWritten(u.(fat := f), g, d, ChainOf(cat, d), i, e') == Swapped(u, g, cat, d, i, e', f)
  {
    hide Put, Slots, Slot, ChainOf;
    if d != 0 {
      SlotPlace(g.per, |ChainOf(cat, d)|, i);
    }
  }

  /** fs/fat16.c:717-735 for the file in slot (d, i), whose entry is e: all or nothing */
  method WriteAt(vol: FatVolume, d: nat, i: nat, e: Entry, bytes: seq<byte>, ghost cat: Cat)
    returns (ok: bool, ghost cat': Cat)
    requires vol.Valid() && FileAt(vol.View(), vol.geo, cat, d, i, e) && |bytes| < 0x1_0000_0000
    modifies vol
    ensures vol.Valid() && Good(vol.View(), vol.geo, cat')
    ensures ok <==> Enough(old(vol.View()), vol.geo, bytes)
    ensures ok ==> FileReplaced(old(vol.View()), vol.View(), vol.geo, cat, cat', d, i, bytes)
    ensures !ok ==> cat' == cat && NothingChanged(old(vol.View()), vol.View(), vol.geo, cat)
  {
    hide Good, FileAt, FileReplaced, Ready, Untaken, NewChain, Released, FreeFrom, CanWrite, Walkable, Rewritten,
         Holding, AfterSwap, FirstOf, Swapped, DirSlots, Holds, NothingChanged, SlotKept, Enough;
    ghost var v, g := vol.View(), vol.geo;
    FileAtMeans(v, g, cat, d, i, e);
    var first;
    ghost var s;
    ok, first, s := vol.WriteNewChain(bytes);
    ghost var u := vol.View();
    if !ok {
      UntakenGood(v, u, g, cat);
      NothingIs(v, u, g, cat);
      return false, cat;
    }
    ReadyIs(v, u, g, cat, s, bytes);
    ReadyGood(v, u, g, cat, d, i, e, s, bytes);
    ghost var cat1 := Holding(cat, s);
    WritePlace(u, g, cat1, d, i, e);
    ghost var f := u.fat;
    ReleasedNothing(u, cat1);
    var oldFirst := FirstOf(e);
    if oldFirst != 0 {
      FileRemovable(u, g, cat1, d, i, e);
      FreeStep(u, g, cat1, d, i, e);
      vol.FreeChain(oldFirst);
      f := vol.View().fat;
    }
    Replaced(v, u, g, cat, d, i, e, s, bytes, f);
    SwapIs(u, g, cat1, d, i, Rewritten(e, Head(s), |bytes|), f);
    var wrote := WriteSlot(vol, d, i, Rewritten(e, first, |bytes|), ChainOf(cat1, d));
    cat' := AfterSwap(cat1, oldFirst);
    ReplacedGood(v, vol.View(), g, cat, cat', d, i, bytes);
    return true, cat';
  }

  /** The table is the same, and every entry and every file. */
  ghost predicate NothingChanged(v: FatVol, w: FatVol, g: Geometry, cat: Cat) {
    && Good(v, g, cat) && Good(w, g, cat) && w.fat == v.fat && w.root == v.root
    && NoneAdded(v, w, g, cat, cat) && forall a: nat, b: nat :: Owned(v, g, cat, a, b) ==>
         SlotKept(v, w, g, cat, cat, a, b)
  }

  lemma NothingIs(v: FatVol, w: FatVol, g: Geometry, cat: Cat)
    requires Good(v, g, cat) && Good(w, g, cat) && w.fat == v.fat && w.root == v.root && NoneAdded(v, w, g, cat, cat)
    requires forall a: nat, b: nat :: Owned(v, g, cat, a, b) ==> SlotKept(v, w, g, cat, cat, a, b)
    ensures NothingChanged(v, w, g, cat)
  {
    hide Good, Owned, SlotKept;
  }

  lemma ReadyIs(v: FatVol, u: FatVol, g: Geometry, cat: Cat, s: seq<nat>, bytes: seq<byte>)
    requires Good(v, g, cat) && Shaped(u, g) && if bytes == [] then s == [] && u == v
             else s != [] && NewChain(v, u, g, s, bytes)
    ensures Ready(v, u, g, cat, s, bytes)
  {
    hide Good, NewChain;
  }

  lemma WritePlace(u: FatVol, g: Geometry, cat: Cat, d: nat, i: nat, e: Entry)
    requires FileAt(u, g, cat, d, i, e)
    ensures (d == 0 || Holds(u.data, g.per, ChainOf(cat, d))) && i < |DirSlots(u, g, d, ChainOf(cat, d))|
            && DirOk(u, g, d, ChainOf(cat, d))
  {
    hide Good, Owning, Holds, DirSlots, Walkable;
    FileAtMeans(u, g, cat, d, i, e);
    GoodDir(u, g, cat, d);
  }

  lemma ReleasedNothing(u: FatVol, cat: Cat)
    ensures Released(u, cat, 0, u.fat)
  {
  }

  lemma ReplacedGood(v: FatVol, w: FatVol, g: Geometry, cat: Cat, cat': Cat, d: nat, i: nat, bytes: seq<byte>)
    requires FileReplaced(v, w, g, cat, cat', d, i, bytes)
    ensures Good(w, g, cat')
  {
    hide Good, Owned, OthersKept, Contents, EntryOk, SlotsOf;
  }
}
