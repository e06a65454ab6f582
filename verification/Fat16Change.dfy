/**
 * Creating and removing on FAT16 (fs/fat16.c:416-466, 738-803), in a directory given
 * by its first cluster; the volume stays good, and every other entry and file is kept.
 */
module Fat16Change {
  import opened Bytes
  import opened Fat16Table
  import opened Fat16Volume
  import opened Fat16Names
  import opened Fat16Dir
  import opened Fat16Tree
  import opened Fat16
  import opened Fat16Write

  // ---- removing ----

  /** dir_is_empty (fs/fat16.c:449-466) */
  method DirIsEmpty(vol: FatVolume, head: nat, ghost cat: Cat) returns (empty: bool)
    requires vol.Valid() && Good(vol.View(), vol.geo, cat) && head in cat.dirs
    ensures empty <==> OwnsNothing(vol.View(), vol.geo, cat, head)
  {
    hide Good, Walkable, SlotsOf, Listable, Owning, EndMarked, Holds, DirSlots;
    ghost var v, g := vol.View(), vol.geo;
    GoodDir(v, g, cat, head);
    ghost var slots := SlotsOf(v, g, cat, head);
    SlotsAre(v, g, cat, head);
    var i := 0;
    while i < MAX_SLOTS
      invariant 0 <= i <= MAX_SLOTS && i <= |slots| && forall j :: 0 <= j < i ==> !Owning(slots[j])
    {
      var ok, e := ReadSlot(vol, head, i, ChainOf(cat, head));
      if !ok || e[0] == UNUSED {
        if ok {
          UnusedAfter(slots, i);
        }
        NothingOwned(v, g, cat, head);
        return true;
      }
      var show := NameFrom83(NameOf(e));
      VisibleOwns(e);
      if Visible(e) && show != [DOT] && show != [DOT, DOT] {
        assert Owned(v, g, cat, head, i);
        return false;
      }
      i := i + 1;
    }
    NothingOwned(v, g, cat, head);
    return true;
  }

  lemma SlotsAre(v: FatVol, g: Geometry, cat: Cat, d: nat)
    requires Listable(v, g, cat, d) && DirOk(v, g, d, ChainOf(cat, d))
    ensures (d == 0 || Holds(v.data, g.per, ChainOf(cat, d)))
            && SlotsOf(v, g, cat, d) == DirSlots(v, g, d, ChainOf(cat, d))
    ensures |SlotsOf(v, g, cat, d)| <= MAX_SLOTS
  {
    hide Slots, Chain;
  }

  lemma UnusedAfter(slots: seq<Entry>, i: nat)
    requires EndMarked(slots) && i < |slots| && slots[i][0] == UNUSED
    ensures forall j :: i <= j < |slots| ==> !Owning(slots[j])
  {
    hide DotName;
  }

  lemma VisibleOwns(e: Entry)
    ensures Owning(e) <==> Visible(e) && From83(NameOf(e)) != [DOT] && From83(NameOf(e)) != [DOT, DOT]
  {
    hide From83;
  }

  lemma NothingOwned(v: FatVol, g: Geometry, cat: Cat, d: nat)
    requires Listable(v, g, cat, d) && forall j :: 0 <= j < |SlotsOf(v, g, cat, d)| ==>
               !Owning(SlotsOf(v, g, cat, d)[j])
    ensures OwnsNothing(v, g, cat, d)
  {
    hide Listable, SlotsOf, Owning;
  }

  lemma DeleteSlot(v: FatVol, g: Geometry, cat: Cat, d: nat, i: nat, e: Entry)
    requires Removable(v, g, cat, d, i, e)
    ensures CanWrite(v, g, cat, d, i, Deleted(e))
  {
    hide Good, SlotsOf, Listable, Owning, EndMarked, NoOther, EntryOk, Deleted, Removable;
    RemovableMeans(v, g, cat, d, i, e);
    GoodDir(v, g, cat, d);
    OwningUsed(e);
    UsedBefore(SlotsOf(v, g, cat, d), i);
    DeletedReads(e);
  }

  /** The slot is deleted and its chain free; every other entry and file is kept. */
  ghost predicate SlotRemoved(v: FatVol, w: FatVol, g: Geometry, cat: Cat, cat': Cat, d: nat, i: nat) {
    && Good(v, g, cat) && Owned(v, g, cat, d, i)
    && Good(w, g, cat') && OthersKept(v, w, g, cat, cat', d, i) && NoneNew(v, w, g, cat, cat', d, i)
    && Listable(w, g, cat', d) && i < |SlotsOf(w, g, cat', d)| && SlotsOf(w, g, cat', d)[i][0] == DELETED
    && var h := OwnedFirst(v, g, cat, d, i);
       cat' == AfterSwap(cat, h) && Released(v, cat, h, w.fat)
  }

  lemma Removed(v: FatVol, g: Geometry, cat: Cat, d: nat, i: nat, e: Entry, f: seq<nat>)
    requires Removable(v, g, cat, d, i, e) && Released(v, cat, FirstOf(e), f)
    ensures (d == 0 || Holds(v.data, g.per, ChainOf(cat, d))) && i < |DirSlots(v, g, d, ChainOf(cat, d))|
    ensures SlotRemoved(v, Swapped(v, g, cat, d, i, Deleted(e), f), g, cat, AfterSwap(cat, FirstOf(e)), d, i)
  {
    hide SlotsOf, Listable, Owning, SlotWritten, NoOther, EntryOk, Holds, DirSlots, Good, FreedAs, Deleted, Removable,
         CanWrite, Owned, SlotKept, Released;
    RemovableMeans(v, g, cat, d, i, e);
    DeleteSlot(v, g, cat, d, i, e);
    DeletedReads(e);
    SwapGood(v, g, cat, d, i, e, Deleted(e), f);
    var w, cat' := Swapped(v, g, cat, d, i, Deleted(e), f), AfterSwap(cat, FirstOf(e));
    SwapLists(v, g, cat, d, i, e, Deleted(e), f, d);
    SwapAdds(v, g, cat, d, i, e, Deleted(e), f);
    forall a: nat, b: nat | Owned(v, g, cat, a, b) && (a != d || b != i) ensures SlotKept(v, w, g, cat, cat', a, b) {
      SwapKeeps(v, g, cat, d, i, e, Deleted(e), f, a, b);
    }
  }

  /** fs/fat16.c:798-802 */
  method RemoveAt(vol: FatVolume, d: nat, i: nat, e: Entry, ghost cat: Cat) returns (ghost cat': Cat)
    requires vol.Valid() && Removable(vol.View(), vol.geo, cat, d, i, e)
    modifies vol
    ensures vol.Valid() && SlotRemoved(old(vol.View()), vol.View(), vol.geo, cat, cat', d, i)
  {
    hide Good, Removable, SlotRemoved, Released, FreeFrom, Walkable, AfterSwap, FirstOf, Swapped, DirSlots, Holds,
         Deleted, SlotsOf, Listable;
    ghost var v, g := vol.View(), vol.geo;
    RemovableMeans(v, g, cat, d, i, e);
    GoodDir(v, g, cat, d);
    ghost var f := v.fat;
    ReleasedNothing(v, cat);
    var first := FirstOf(e);
    if first != 0 {
      FreeStep(v, g, cat, d, i, e);
      vol.FreeChain(first);
      f := vol.View().fat;
    }
    Removed(v, g, cat, d, i, e, f);
    SwapIs(v, g, cat, d, i, Deleted(e), f);
    var wrote := WriteSlot(vol, d, i, Deleted(e), ChainOf(cat, d));
    cat' := AfterSwap(cat, first);
  }

  /** Whether fat16_unlink accepts (fs/fat16.c:786-797). */
  ghost predicate Unlinkable(v: FatVol, g: Geometry, cat: Cat, p: Path, directory: bool)
    requires Good(v, g, cat) && p != [] && PathOk(p)
  {
    RootDir(v, g, cat);
    var at := Seek(v, g, cat, 0, p);
    && at.At? && Owned(v, g, cat, at.dir, at.index)
    && var e := SlotsOf(v, g, cat, at.dir)[at.index];
       IsDir(e) == directory && (directory ==> OwnsNothing(v, g, cat, FirstOf(e)))
  }

  /** fat16_unlink (fs/fat16.c:784-803), the path not being the root */
  method Unlink(vol: FatVolume, p: Path, directory: bool, ghost cat: Cat) returns (ok: bool, ghost cat': Cat)
    requires vol.Valid() && Good(vol.View(), vol.geo, cat) && p != [] && PathOk(p)
    modifies vol
    ensures vol.Valid() && (ok <==> Unlinkable(old(vol.View()), vol.geo, cat, p, directory))
    ensures !ok ==> vol.View() == old(vol.View()) && cat' == cat
    ensures ok ==> var at := Seek(old(vol.View()), vol.geo, cat, 0, p);
                   at.At? && SlotRemoved(old(vol.View()), vol.View(), vol.geo, cat, cat', at.dir, at.index)
  {
    hide Good, Owned, SlotRemoved, Seek, OwnsNothing, SlotsOf, Usable;
    ghost var v, g := vol.View(), vol.geo;
    RootDir(v, g, cat);
    var found, d, i, e := PathLookup(vol, p, cat);
    if !found || IsDir(e) != directory {
      return false, cat;
    }
    var first := FirstOf(e);
    if directory {
      OwnedDirHead(v, g, cat, d, i);
      var empty := DirIsEmpty(vol, first, cat);
      if !empty {
        return false, cat;
      }
    }
    cat' := RemoveAt(vol, d, i, e, cat);
    return true, cat';
  }

  lemma OwnedDirHead(v: FatVol, g: Geometry, cat: Cat, d: nat, i: nat)
    requires Good(v, g, cat) && Owned(v, g, cat, d, i) && IsDir(SlotsOf(v, g, cat, d)[i])
    ensures FirstOf(SlotsOf(v, g, cat, d)[i]) in cat.dirs && FirstOf(SlotsOf(v, g, cat, d)[i]) != 0
  {
    hide ChainsOk, DirsOk, OneOwner, SlotsOf, Listable, Owning;
    assert EntryOk(g, cat, SlotsOf(v, g, cat, d)[i]);
  }

  // ---- a slot for a new name ----

  /** The catalog after find_free_slot: directory d's chain is now t. */
  ghost function Roomed(cat: Cat, d: nat, t: seq<nat>): Cat {
    if d == 0 then cat else cat.(chains := cat.chains[d := t])
  }

  /** Slot `index` of directory d is free; every entry and file is kept. */
  ghost predicate RoomMade(v: FatVol, w: FatVol, g: Geometry, cat: Cat, cat': Cat, d: nat, index: nat) {
    && Good(v, g, cat) && Good(w, g, cat') && cat'.dirs == cat.dirs && cat'.chains.Keys == cat.chains.Keys
    && d in cat.dirs
    && (forall h :: h in cat.chains && h != d ==> cat'.chains[h] == cat.chains[h])
    && Listable(w, g, cat', d) && index < |SlotsOf(w, g, cat', d)| && IsFree(SlotsOf(w, g, cat', d)[index])
    && (forall j :: 0 <= j < index ==> SlotsOf(w, g, cat', d)[j][0] != UNUSED)
    && (forall a: nat, b: nat :: Owned(v, g, cat, a, b) ==> SlotKept(v, w, g, cat, cat', a, b))
    && NoneAdded(v, w, g, cat, cat')
  }

  lemma RoomHere(v: FatVol, g: Geometry, cat: Cat, d: nat, index: nat)
    requires Good(v, g, cat) && d in cat.dirs && Listable(v, g, cat, d) && index < |SlotsOf(v, g, cat, d)|
    requires IsFree(SlotsOf(v, g, cat, d)[index]) && forall j :: 0 <= j < index ==> !IsFree(SlotsOf(v, g, cat, d)[j])
    ensures RoomMade(v, v, g, cat, cat, d, index)
  {
    hide Good, Listable, SlotsOf, Owned, SlotKept;
    forall a: nat, b: nat | Owned(v, g, cat, a, b) ensures SlotKept(v, v, g, cat, cat, a, b) {
      KeptItself(v, g, cat, a, b);
    }
  }

  lemma RoomAdded(v: FatVol, w: FatVol, g: Geometry, cat: Cat, d: nat, n: nat)
    requires Good(v, g, cat) && d in cat.dirs && d != 0 && d in cat.chains && Extended(v, w, g, cat.chains[d], n)
    requires Listable(v, g, cat, d) && Full(SlotsOf(v, g, cat, d)) && |SlotsOf(v, g, cat, d)| < MAX_SLOTS
    ensures RoomMade(v, w, g, cat, Roomed(cat, d, cat.chains[d] + [n]), d, |SlotsOf(v, g, cat, d)|)
  {
    hide Good, Listable, SlotsOf, SlotKept, Extended;
    ExtendDir(v, w, g, cat, d, n);
    var cat' := Roomed(cat, d, cat.chains[d] + [n]);
    RoomSlot(v, w, g, cat, d, n);
    forall a: nat, b: nat | Owned(v, g, cat, a, b) ensures SlotKept(v, w, g, cat, cat', a, b) {
      OwnedDir(v, g, cat, a, b);
      OwnedIn(v, g, cat, a, b);
      Kept(v, w, g, cat, cat', a, b);
    }
  }

  lemma RoomSlot(v: FatVol, w: FatVol, g: Geometry, cat: Cat, d: nat, n: nat)
    requires Listable(v, g, cat, d) && d != 0 && Extended(v, w, g, cat.chains[d], n) && Full(SlotsOf(v, g, cat, d))
    requires Listable(w, g, Roomed(cat, d, cat.chains[d] + [n]), d)
    ensures var a, b := SlotsOf(v, g, cat, d), SlotsOf(w, g, Roomed(cat, d, cat.chains[d] + [n]), d);
            |a| < |b| && IsFree(b[|a|]) && forall j :: 0 <= j < |a| ==> b[j][0] != UNUSED
  {
    hide Slots, Extended;
    ExtendedSlots(v, w, g, cat.chains[d], n);
    ExtendedPer(v, w, g, cat.chains[d], n);
    var a, b := SlotsOf(v, g, cat, d), SlotsOf(w, g, Roomed(cat, d, cat.chains[d] + [n]), d);
    assert forall j :: 0 <= j < |a| ==> b[..|a|][j] == b[j];
  }

  lemma ExtendedPer(v: FatVol, w: FatVol, g: Geometry, s: seq<nat>, n: nat)
    requires Extended(v, w, g, s, n)
    ensures g.per > 0
  {
  }

  /** find_free_slot finds a slot in directory d. */
  ghost predicate RoomIn(v: FatVol, g: Geometry, cat: Cat, d: nat) {
    Listable(v, g, cat, d) && Roomy(v, g, d, SlotsOf(v, g, cat, d))
  }

  /** The clusters that takes. */
  ghost function GrownIn(v: FatVol, g: Geometry, cat: Cat, d: nat): nat {
    if Listable(v, g, cat, d) then Grown(SlotsOf(v, g, cat, d)) else 0
  }

  /** The free clusters of a volume. */
  ghost function FreeIn(v: FatVol, g: Geometry): nat {
    if Shaped(v, g) then FreeCount(v.fat, g.max) else 0
  }

  /** find_free_slot on a good volume */
  method MakeRoom(vol: FatVolume, d: nat, ghost cat: Cat) returns (ok: bool, index: nat, ghost cat': Cat)
    requires vol.Valid() && Good(vol.View(), vol.geo, cat) && d in cat.dirs
    modifies vol`copies, vol`data
    ensures vol.Valid() && (!ok ==> vol.View() == old(vol.View()) && cat' == cat)
    ensures ok <==> RoomIn(old(vol.View()), vol.geo, cat, d)
    ensures ok ==>
              FreeIn(vol.View(), vol.geo) ==
                FreeIn(old(vol.View()), vol.geo) - GrownIn(old(vol.View()), vol.geo, cat, d)
    ensures ok ==> RoomMade(old(vol.View()), vol.View(), vol.geo, cat, cat', d, index)
  {
    hide Good, Listable, RoomMade, SlotsOf, Walkable, SlotFound, Roomy, FreeIn, GrownIn, Holds, DirSlots;
    ghost var v, g := vol.View(), vol.geo;
    GoodDir(v, g, cat, d);
    SlotsAre(v, g, cat, d);
    ghost var t;
    ok, index, t := FindFreeSlot(vol, d, ChainOf(cat, d));
    cat' := cat;
    if ok {
      cat' := Roomed(cat, d, t);
      RoomFound(v, vol.View(), g, cat, d, t, index);
      RoomTakes(v, vol.View(), g, cat, d, t, index);
    }
  }

  lemma RoomTakes(v: FatVol, w: FatVol, g: Geometry, cat: Cat, d: nat, t: seq<nat>, index: nat)
    requires Good(v, g, cat) && d in cat.dirs && Shaped(w, g) && SlotFound(v, w, g, d, ChainOf(cat, d), t, index)
    ensures FreeIn(w, g) == FreeIn(v, g) - GrownIn(v, g, cat, d)
  {
    hide Good, Slots, Extended, Full, Holds, IsFree, FreeCount;
    GoodDir(v, g, cat, d);
    if Full(SlotsOf(v, g, cat, d)) {
      ExtendedCount(v, w, g, ChainOf(cat, d), t[|t| - 1]);
    }
  }

  lemma RoomFound(v: FatVol, w: FatVol, g: Geometry, cat: Cat, d: nat, t: seq<nat>, index: nat)
    requires Good(v, g, cat) && d in cat.dirs && SlotFound(v, w, g, d, ChainOf(cat, d), t, index)
    ensures RoomMade(v, w, g, cat, Roomed(cat, d, t), d, index)
  {
    hide Good, RoomMade, Slots, Extended, Full, Holds, IsFree;
    GoodDir(v, g, cat, d);
    if Full(SlotsOf(v, g, cat, d)) {
      RoomAdded(v, w, g, cat, d, t[|t| - 1]);
    } else {
      assert Roomed(cat, d, t) == cat;
      RoomHere(v, g, cat, d, index);
    }
  }

  // ---- a new name in a free slot ----

  /** Entry e sits in slot (d, i); every other entry and file is kept. */
  ghost predicate SlotFilled(v: FatVol, w: FatVol, g: Geometry, cat: Cat, cat': Cat, d: nat, i: nat, e: Entry) {
    && Good(v, g, cat) && Good(w, g, cat') && OthersKept(v, w, g, cat, cat', d, i) && NoneNew(v, w, g, cat, cat', d, i)
    && !Owned(v, g, cat, d, i) && Owned(w, g, cat', d, i) && SlotsOf(w, g, cat', d)[i] == e
  }

  lemma FillSlot(v: FatVol, g: Geometry, cat: Cat, d: nat, i: nat, e: Entry)
    requires CanWrite(v, g, cat, d, i, e) && Owning(e) && !Owned(v, g, cat, d, i)
    ensures (d == 0 || Holds(v.data, g.per, ChainOf(cat, d))) && i < |DirSlots(v, g, d, ChainOf(cat, d))|
    ensures SlotFilled(v, SlotWritten(v, g, d, ChainOf(cat, d), i, e), g, cat, cat, d, i, e)
  {
    hide SlotsOf, Owning, SlotWritten, NoOther, EntryOk, Holds, DirSlots, Listable, SlotKept;
    SlotStep(v, g, cat, d, i, e);
    var w := SlotWritten(v, g, d, ChainOf(cat, d), i, e);
    forall a: nat, b: nat | Owned(v, g, cat, a, b) && (a != d || b != i) ensures SlotKept(v, w, g, cat, cat, a, b) {
      OwnedDir(v, g, cat, a, b);
      OwnedIn(v, g, cat, a, b);
      SlotStepDirs(v, g, cat, d, i, e, a);
      FillChainKept(v, g, cat, d, i, e, OwnedFirst(v, g, cat, a, b));
      Kept(v, w, g, cat, cat, a, b);
    }
    forall a: nat, b: nat | Owned(w, g, cat, a, b) && (a != d || b != i) ensures Owned(v, g, cat, a, b) {
      OwnersAfter(v, g, cat, d, i, e, a, b);
    }
    SlotStepDirs(v, g, cat, d, i, e, d);
    SwapOwned(w, g, cat, d, i, e);
  }

  lemma FillChainKept(v: FatVol, g: Geometry, cat: Cat, d: nat, i: nat, e: Entry, h: nat)
    requires CanWrite(v, g, cat, d, i, e) && (d == 0 || Holds(v.data, g.per, ChainOf(cat, d)))
             && i < |DirSlots(v, g, d, ChainOf(cat, d))|
    ensures h !in cat.dirs && h in cat.chains ==>
              SameData(v, SlotWritten(v, g, d, ChainOf(cat, d), i, e), cat.chains[h])
  {
    hide Owning, SlotWritten, EntryOk, Holds, SlotsOf, DirSlots, Listable, Chain, NoOther;
    SlotStep(v, g, cat, d, i, e);
    if h !in cat.dirs && h in cat.chains {
      assert ChainOk(v, g, cat, h);
      FileApart(v, g, cat, d, h);
      WrittenSize(v, g, cat, d, i, e);
      forall c | c in cat.chains[h]
          ensures c < |v.data| && SlotWritten(v, g, d, ChainOf(cat, d), i, e).data[c] == v.data[c] {
        ChainUsed(v.fat, g.max, cat.chains[h], c);
      }
    }
  }

  lemma NewEntryOwns(name: seq<byte>, attr: byte, first: nat)
    requires Usable(name) && (attr == ARCHIVE || attr == DIRECTORY) && first < 0x1_0000_0000
    ensures var e := NewEntry(name, attr, first);
            Owning(e) && FirstOf(e) == first && SizeOf(e) == 0 && (IsDir(e) <==> attr == DIRECTORY) && NameOf(e) == name
              && e[0] != UNUSED
  {
    hide DotName, Pointing, FirstOf, SizeOf;
    PointingReads(name + Zeros(21), attr, first, 0);
    assert (name + Zeros(21))[..11] == name;
  }

  // ---- a new directory ----

  function DotStored(): seq<byte> { [DOT] + Spaces(10) }
  function DotDotStored(): seq<byte> { [DOT, DOT] + Spaces(9) }

  lemma DotNames()
    ensures |DotStored()| == 11 && |DotDotStored()| == 11 && DotName(DotStored()) && DotName(DotDotStored())
  {
    var a, b := DotStored(), DotDotStored();
    assert a[..8] == [DOT] + Spaces(7) && a[8..] == Spaces(3);
    assert b[..8] == [DOT, DOT] + Spaces(6) && b[8..] == Spaces(3);
    WordPadded([DOT], 7);
    WordPadded([DOT, DOT], 6);
    assert Lowers([DOT]) == [DOT] && Lowers([DOT, DOT]) == [DOT, DOT];
  }

  lemma DotEntry(name: seq<byte>, first: nat)
    requires |name| == 11 && DotName(name) && name[0] == DOT && first < 0x1_0000_0000
    ensures !Owning(NewEntry(name, DIRECTORY, first)) && NewEntry(name, DIRECTORY, first)[0] != UNUSED
  {
    hide DotName, Pointing;
    PointingReads(name + Zeros(21), DIRECTORY, first, 0);
    assert (name + Zeros(21))[..11] == name;
  }

  /** The slots of a fresh directory: dot entries, then unused. */
  ghost predicate FreshSlots(slots: seq<Entry>, k: nat) {
    && (forall i :: 0 <= i < |slots| ==> !Owning(slots[i]))
    && (forall i :: 0 <= i < |slots| ==> (slots[i][0] == UNUSED <==> i >= k))
  }

  /** The first k entries of a new directory c stand: "." for c itself, ".." for its parent; the rest is blank. */
  ghost predicate Begun(slots: seq<Entry>, c: nat, parent: nat, k: nat) {
    && c < TABLE && parent < TABLE
    && forall i :: 0 <= i < |slots| ==>
         slots[i] == if i == 0 < k then DotEntryFor(c) else if i == 1 < k then DotDotEntryFor(parent) else Zeros(32)
  }

  function DotEntryFor(c: nat): Entry
    requires c < TABLE
  {
    NewEntry(DotStored(), DIRECTORY, c)
  }

  function DotDotEntryFor(parent: nat): Entry
    requires parent < TABLE
  {
    NewEntry(DotDotStored(), DIRECTORY, parent)
  }

  lemma FreshMarked(slots: seq<Entry>, k: nat)
    requires FreshSlots(slots, k)
    ensures EndMarked(slots)
  {
    hide Owning;
  }

  /** The volume while the new cluster c is being filled: taken from v, nothing in use touched. */
  ghost predicate Furnishing(v: FatVol, u: FatVol, g: Geometry, c: nat, k: nat) {
    && Shaped(v, g) && Shaped(u, g) && Taking(v, u, g.max, [c]) && Chain(u.fat, g.max, [c]) && c != 0
    && Holds(u.data, g.per, [c]) && FreshSlots(Slots(u.data, g.per, [c]), k)
  }

  lemma FurnishStart(v: FatVol, g: Geometry, c: nat)
    requires Shaped(v, g) && 2 <= c < g.max && v.fat[c] == FREE
    ensures Furnishing(v, v.(fat := v.fat[c := LAST], data := v.data[c := Zeros(g.Size())]), g, c, 0)
    ensures Holds(v.data[c := Zeros(g.Size())], g.per, [c])
            && Begun(Slots(v.data[c := Zeros(g.Size())], g.per, [c]), c, 0, 0)
  {
    hide Taking, Chain, Slots, FreshSlots, Holds;
    var u := v.(fat := v.fat[c := LAST], data := v.data[c := Zeros(g.Size())]);
    TakeStart(v, g);
    TakeStep(v, v, g, [], c);
    assert [] + [c] == [c];
    TakingIsChain(v, u, g.max, [c]);
    ChainHolds(u, g, [c]);
    ZeroSlots(u.data, g, c);
  }

  lemma ZeroSlots(d: seq<Cluster>, g: Geometry, c: nat)
    requires c < |d| && c < TABLE && d[c] == Zeros(g.Size()) && Holds(d, g.per, [c])
    ensures FreshSlots(Slots(d, g.per, [c]), 0) && Begun(Slots(d, g.per, [c]), c, 0, 0)
  {
    hide DotName;
    forall i | 0 <= i < |Slots(d, g.per, [c])| ensures Slots(d, g.per, [c])[i] == Zeros(32) {
      SlotPlace(g.per, 1, i);
      assert [c][i / g.per] == c;
      ZeroSlot(g, i % g.per);
    }
  }

  lemma ZeroSlot(g: Geometry, j: nat)
    requires 32 * j + 32 <= g.Size()
    ensures SlotIn(Zeros(g.Size()), j) == Zeros(32)
  {
  }

  lemma FurnishStep(v: FatVol, u: FatVol, g: Geometry, c: nat, k: nat, e: Entry)
    requires Furnishing(v, u, g, c, k) && k < |Slots(u.data, g.per, [c])| && !Owning(e) && e[0] != UNUSED
    ensures DirOk(u, g, c, [c]) && Furnishing(v, SlotWritten(u, g, c, [c], k, e), g, c, k + 1)
    ensures Slots(SlotWritten(u, g, c, [c], k, e).data, g.per, [c]) == Slots(u.data, g.per, [c])[k := e]
  {
    hide SlotWritten, Owning, Slots, LinkedAs, Chain;
    OneCluster(g);
    SlotWrittenMeans(u, g, c, [c], k, e);
    var w := SlotWritten(u, g, c, [c], k, e);
    assert |w.data| == |u.data|;
    assert SparesUsed(v, w) by {
      assert [c][0] == c && v.fat[c] == FREE;
      forall x: nat | x < |v.data| && v.fat[x] != FREE ensures w.data[x] == v.data[x] {
        assert x !in [c];
      }
    }
  }

  lemma OneCluster(g: Geometry)
    requires g.Ok()
    ensures 1 * g.per <= MAX_SLOTS
  {
  }

  /** The furnished cluster becomes a directory nobody owns yet. */
  lemma NewDirReady(v: FatVol, u: FatVol, g: Geometry, cat: Cat, c: nat, k: nat)
    requires Good(v, g, cat) && Furnishing(v, u, g, c, k)
    ensures c !in cat.chains && c !in cat.dirs
    ensures var cat' := WithDir(cat, c);
            && Good(u, g, cat') && SameLists(v, u, g, cat, cat')
            && (forall h :: h in cat.chains ==> SameData(v, u, cat.chains[h]))
            && (forall a: nat, b: nat :: Owned(u, g, cat', a, b) ==>
                 Owned(v, g, cat, a, b) && OwnedFirst(u, g, cat', a, b) != c)
  {
    hide SlotsOf, Owning, EndMarked, Taking, Chain, EntryOk, Good, Slots;
    AddChain(v, u, g, cat, [c]);
    var cat1, cat' := WithChain(cat, [c]), WithDir(cat, c);
    FreshDir(u, g, cat1, c, k);
    AddDir(u, g, cat1, c);
    assert cat1.(dirs := cat1.dirs + {c}) == cat';
    forall a: nat, b: nat | Owned(u, g, cat', a, b)
        ensures Owned(v, g, cat, a, b) && OwnedFirst(u, g, cat', a, b) != c {
      OwnedDir(u, g, cat', a, b);
      OwnedIn(u, g, cat', a, b);
      assert a != c;
      OwnersSame(u, u, g, cat1, cat', a, b);
      OwnersSame(v, u, g, cat, cat1, a, b);
    }
    ListsTwice(v, u, g, cat, cat1, cat');
  }

  ghost function WithDir(cat: Cat, c: nat): Cat {
    Cat(cat.chains[c := [c]], cat.dirs + {c})
  }

  lemma FreshDir(u: FatVol, g: Geometry, cat: Cat, c: nat, k: nat)
    requires g.Ok() && c in cat.chains && cat.chains[c] == [c] && c != 0 && Holds(u.data, g.per, [c])
             && FreshSlots(Slots(u.data, g.per, [c]), k)
    ensures var cat' := cat.(dirs := cat.dirs + {c});
            && Listable(u, g, cat', c) && EndMarked(SlotsOf(u, g, cat', c))
            && forall i :: 0 <= i < |SlotsOf(u, g, cat', c)| ==> !Owning(SlotsOf(u, g, cat', c)[i])
  {
    hide Owning, EndMarked, Slots;
    OneCluster(g);
    FreshMarked(Slots(u.data, g.per, [c]), k);
  }

  lemma ListsTwice(v: FatVol, u: FatVol, g: Geometry, cat: Cat, cat1: Cat, cat2: Cat)
    requires SameLists(v, u, g, cat, cat1) && SameLists(u, u, g, cat1, cat2)
    ensures SameLists(v, u, g, cat, cat2)
  {
    hide SlotsOf, Listable;
    forall a | a in cat.dirs
      ensures a in cat2.dirs && Listable(v, g, cat, a) && Listable(u, g, cat2, a)
              && SlotsOf(u, g, cat2, a) == SlotsOf(v, g, cat, a)
    {
      assert a in cat1.dirs;
    }
  }

  /** Cluster c is the directory just made in parent. */
  ghost predicate Furnished(u: FatVol, g: Geometry, c: nat, parent: nat) {
    Holds(u.data, g.per, [c]) && Begun(Slots(u.data, g.per, [c]), c, parent, 2)
  }

  lemma FurnishedIs(v: FatVol, u: FatVol, w: FatVol, g: Geometry, c: nat, parent: nat, wrote: bool)
    requires Furnishing(v, u, g, c, 1) && Holds(u.data, g.per, [c]) && Begun(Slots(u.data, g.per, [c]), c, 0, 1)
             && parent < TABLE
    requires wrote <==> 1 < |Slots(u.data, g.per, [c])|
    requires w == if wrote then SlotWritten(u, g, c, [c], 1, DotDotEntryFor(parent)) else u
    ensures Furnished(w, g, c, parent) && Furnishing(v, w, g, c, if wrote then 2 else 1)
  {
    hide Furnishing, Slots, NewEntry, DotStored, DotDotStored, SlotWritten;
    DotNames();
    DotStarts();
    DotEntry(DotDotStored(), parent);
    if wrote {
      FurnishStep(v, u, g, c, 1, DotDotEntryFor(parent));
      FurnishDir(v, w, g, c, 2);
    }
  }

  /** fs/fat16.c:762-780: a cluster with "." and ".." */
  method Furnish(vol: FatVolume, parent: nat, ghost cat: Cat) returns (c: nat, ghost cat': Cat)
    requires vol.Valid() && Good(vol.View(), vol.geo, cat) && parent < TABLE
    modifies vol
    ensures vol.Valid()
    ensures c == 0 <==> FreeIn(old(vol.View()), vol.geo) == 0
    ensures c == 0 ==> vol.View() == old(vol.View()) && cat' == cat
    ensures c != 0 ==> c < TABLE && c !in cat.chains && c !in cat.dirs && cat' == WithDir(cat, c)
    ensures c != 0 ==> Furnished(vol.View(), vol.geo, c, parent) && exists k: nat ::
              Furnishing(old(vol.View()), vol.View(), vol.geo, c, k)
  {
    hide Good, Furnishing, Walkable, NewEntry, DotStored, DotDotStored, SlotWritten, FreeCount, Furnished, Begun;
    ghost var v, g := vol.View(), vol.geo;
    cat' := cat;
    NoneFree(v.fat, g.max);
    c := vol.AllocCluster();
    if c == 0 {
      return;
    }
    FurnishStart(v, g, c);
    DotNames();
    DotStarts();
    DotEntry(DotStored(), c);
    FurnishDir(v, vol.View(), g, c, 0);
    var dot := DotEntryFor(c);
    FurnishStep(v, vol.View(), g, c, 0, dot);
    BegunDot(Slots(vol.data, g.per, [c]), c);
    var wroteDot := WriteSlot(vol, c, 0, dot, [c]);
    FurnishDir(v, vol.View(), g, c, 1);
    ghost var u := vol.View();
    var wroteDotDot := WriteSlot(vol, c, 1, DotDotEntryFor(parent), [c]);
    FurnishedIs(v, u, vol.View(), g, c, parent, wroteDotDot);
    NewDirFresh(v, vol.View(), g, cat, c, if wroteDotDot then 2 else 1);
    cat' := WithDir(cat, c);
  }

  lemma BegunDot(slots: seq<Entry>, c: nat)
    requires slots != [] && Begun(slots, c, 0, 0)
    ensures Begun(slots[0 := DotEntryFor(c)], c, 0, 1)
  {
    hide DotEntryFor, DotDotEntryFor;
  }

  lemma DotStarts()
    ensures DotStored() != [] && DotStored()[0] == DOT && DotDotStored() != [] && DotDotStored()[0] == DOT
  {
  }

  lemma FurnishDir(v: FatVol, u: FatVol, g: Geometry, c: nat, k: nat)
    requires Furnishing(v, u, g, c, k)
    ensures DirOk(u, g, c, [c]) && Holds(u.data, g.per, [c])
            && |DirSlots(u, g, c, [c])| == |Slots(u.data, g.per, [c])| == g.per > 0 && c != 0
  {
    hide Chain, Taking, FreshSlots;
    OneCluster(g);
  }

  lemma NewDirFresh(v: FatVol, u: FatVol, g: Geometry, cat: Cat, c: nat, k: nat)
    requires Good(v, g, cat) && Furnishing(v, u, g, c, k)
    ensures c !in cat.chains && c !in cat.dirs && c < TABLE
  {
    hide Good, Furnishing;
    NewDirReady(v, u, g, cat, c, k);
    FurnishRange(v, u, g, c, k);
  }

  lemma FurnishRange(v: FatVol, u: FatVol, g: Geometry, c: nat, k: nat)
    requires Furnishing(v, u, g, c, k)
    ensures c < TABLE
  {
    assert [c][0] < TABLE;
  }

  // ---- create ----

  lemma NotFree(v: FatVol, g: Geometry, cat: Cat, q: nat, j: nat, a: nat, b: nat)
    requires Owned(v, g, cat, a, b) && Listable(v, g, cat, q) && j < |SlotsOf(v, g, cat, q)|
             && IsFree(SlotsOf(v, g, cat, q)[j])
    ensures a != q || b != j
  {
    hide Listable, SlotsOf, DotName;
  }

  lemma FreeNotOwned(v: FatVol, g: Geometry, cat: Cat, d: nat, i: nat)
    requires Listable(v, g, cat, d) && i < |SlotsOf(v, g, cat, d)| && IsFree(SlotsOf(v, g, cat, d)[i])
    ensures !Owned(v, g, cat, d, i)
  {
    hide Listable, SlotsOf, DotName;
  }

  /** A slot that is not owned yet takes a fresh owning entry. */
  lemma CanFill(v: FatVol, w: FatVol, g: Geometry, cat: Cat, cat': Cat, d: nat, index: nat, e: Entry)
    requires RoomMade(v, w, g, cat, cat', d, index) && Owning(e) && e[0] != UNUSED && FirstOf(e) == 0 && SizeOf(e) == 0
             && !IsDir(e)
    ensures CanWrite(w, g, cat', d, index, e) && !Owned(w, g, cat', d, index)
  {
    hide Good, Listable, SlotsOf, Owned, SlotKept, NoOther, Owning;
    FreeNotOwned(w, g, cat', d, index);
  }

  lemma CanFillDir(v: FatVol, w: FatVol, u: FatVol, g: Geometry, cat: Cat, cat1: Cat, d: nat, index: nat, c: nat,
      k: nat, e: Entry)
    requires RoomMade(v, w, g, cat, cat1, d, index) && Furnishing(w, u, g, c, k)
    requires Owning(e) && e[0] != UNUSED && FirstOf(e) == c && IsDir(e)
    ensures c !in cat1.chains && c !in cat1.dirs && CanWrite(u, g, WithDir(cat1, c), d, index, e)
            && !Owned(u, g, WithDir(cat1, c), d, index)
    ensures forall a: nat, b: nat :: Owned(v, g, cat, a, b) ==> SlotKept(v, u, g, cat, WithDir(cat1, c), a, b)
    ensures NoneAdded(v, u, g, cat, WithDir(cat1, c))
  {
    hide Good, Listable, SlotsOf, SlotKept, NoOther, Owning, Furnishing;
    NewDirReady(w, u, g, cat1, c, k);
    FreeNotOwned(w, g, cat1, d, index);
    FurnishDir(w, u, g, c, k);
    var cat2 := WithDir(cat1, c);
    assert NoOther(u, g, cat2, d, index, c) by { AllOther(u, g, cat2, d, index, c); }
    forall a: nat, b: nat | Owned(v, g, cat, a, b) ensures SlotKept(v, u, g, cat, cat2, a, b) {
      KeptOwned(v, w, g, cat, cat1, a, b);
      OwnedDir(w, g, cat1, a, b);
      OwnedIn(w, g, cat1, a, b);
      NewDirChain(w, u, g, cat1, c, OwnedFirst(w, g, cat1, a, b));
      Kept(w, u, g, cat1, cat2, a, b);
      KeptTwice(v, w, u, g, cat, cat1, cat2, a, b);
    }
  }

  lemma NewDirChain(w: FatVol, u: FatVol, g: Geometry, cat: Cat, c: nat, h: nat)
    requires c !in cat.chains && forall x :: x in cat.chains ==> SameData(w, u, cat.chains[x])
    ensures h in cat.chains ==>
              h in WithDir(cat, c).chains && WithDir(cat, c).chains[h] == cat.chains[h] && SameData(w, u, cat.chains[h])
  {
  }

  /** Filling keeps what making room kept. */
  lemma FilledAfter(v: FatVol, u: FatVol, w: FatVol, g: Geometry, cat: Cat, cat1: Cat, d: nat, i: nat, e: Entry)
    requires Good(v, g, cat) && SlotFilled(u, w, g, cat1, cat1, d, i, e) && Good(u, g, cat1)
    requires NoneAdded(v, u, g, cat, cat1) && forall a: nat, b: nat :: Owned(v, g, cat, a, b) ==>
               SlotKept(v, u, g, cat, cat1, a, b)
    ensures SlotFilled(v, w, g, cat, cat1, d, i, e)
  {
    hide Good, SlotsOf, Owned, SlotKept;
    NewTwice(v, u, w, g, cat, cat1, cat1, d, i);
    if Owned(v, g, cat, d, i) {
      KeptOwned(v, u, g, cat, cat1, d, i);
      assert false;
    }
    forall a: nat, b: nat | Owned(v, g, cat, a, b) && (a != d || b != i) ensures SlotKept(v, w, g, cat, cat1, a, b) {
      KeptOwned(v, u, g, cat, cat1, a, b);
      KeptTwice(v, u, w, g, cat, cat1, cat1, a, b);
    }
  }

  /** Nothing visible changed: the directory may have gained an unused cluster. */
  ghost predicate AllKept(v: FatVol, w: FatVol, g: Geometry, cat: Cat, cat': Cat) {
    && Good(v, g, cat) && Good(w, g, cat') && NoneAdded(v, w, g, cat, cat')
    && forall a: nat, b: nat :: Owned(v, g, cat, a, b) ==> SlotKept(v, w, g, cat, cat', a, b)
  }

  lemma RoomKeeps(v: FatVol, w: FatVol, g: Geometry, cat: Cat, cat': Cat, d: nat, index: nat)
    requires RoomMade(v, w, g, cat, cat', d, index)
    ensures AllKept(v, w, g, cat, cat') && Good(w, g, cat') && d in cat'.dirs
  {
    hide Good, Listable, SlotsOf, Owned, SlotKept;
  }

  lemma NothingKeeps(v: FatVol, g: Geometry, cat: Cat)
    requires Good(v, g, cat)
    ensures AllKept(v, v, g, cat, cat)
  {
    hide Good, Owned, SlotKept;
    forall a: nat, b: nat | Owned(v, g, cat, a, b) ensures SlotKept(v, v, g, cat, cat, a, b) {
      KeptItself(v, g, cat, a, b);
    }
  }

  /** Whether directory d has a visible slot under the name. */
  ghost predicate HasName(v: FatVol, g: Geometry, cat: Cat, d: nat, name: seq<byte>) {
    Listable(v, g, cat, d) && exists i :: 0 <= i < |SlotsOf(v, g, cat, d)| && Hit(SlotsOf(v, g, cat, d)[i], name)
  }

  /**
   * fat16_create accepts the name in directory d: it is new, a slot can be found, and a directory
   * still gets a cluster.
   */
  ghost predicate Creatable(v: FatVol, g: Geometry, cat: Cat, d: nat, name: seq<byte>, directory: bool) {
    && !HasName(v, g, cat, d, name) && RoomIn(v, g, cat, d)
    && (directory ==> FreeIn(v, g) > GrownIn(v, g, cat, d))
  }

  /** The entry's directory holds just "." and "..", leading to itself and to d, and owns nothing. */
  ghost predicate NewDir(w: FatVol, g: Geometry, cat: Cat, d: nat, e: Entry) {
    Listable(w, g, cat, FirstOf(e)) && Begun(SlotsOf(w, g, cat, FirstOf(e)), FirstOf(e), d, 2)
      && OwnsNothing(w, g, cat, FirstOf(e))
  }

  lemma NewDirMade(u: FatVol, w: FatVol, g: Geometry, cat: Cat, d: nat, i: nat, e: Entry, c: nat)
    requires CanWrite(u, g, WithDir(cat, c), d, i, e) && (d == 0 || Holds(u.data, g.per, ChainOf(WithDir(cat, c), d)))
             && i < |DirSlots(u, g, d, ChainOf(WithDir(cat, c), d))|
    requires w == SlotWritten(u, g, d, ChainOf(WithDir(cat, c), d), i, e)
    requires Furnished(u, g, c, d) && FirstOf(e) == c && c != 0 && c != d
    ensures NewDir(w, g, WithDir(cat, c), d, e)
  {
    hide CanWrite, Good, Slots, Holds, SlotWritten, FirstOf, Begun, DirSlots, SlotsOf, Owning;
    var cat' := WithDir(cat, c);
    SlotStepDirs(u, g, cat', d, i, e, c);
    NewDirSlots(u, g, cat, c);
    BegunOwnsNot(SlotsOf(w, g, cat', c), c, d);
    NothingOwned(w, g, cat', c);
  }

  lemma NewDirSlots(u: FatVol, g: Geometry, cat: Cat, c: nat)
    requires Holds(u.data, g.per, [c]) && Listable(u, g, WithDir(cat, c), c) && c != 0
    ensures SlotsOf(u, g, WithDir(cat, c), c) == Slots(u.data, g.per, [c])
  {
    hide Slots, Holds;
  }

  lemma BegunOwnsNot(slots: seq<Entry>, c: nat, parent: nat)
    requires Begun(slots, c, parent, 2)
    ensures forall i :: 0 <= i < |slots| ==> !Owning(slots[i])
  {
    hide NewEntry, DotStored, DotDotStored, DotName;
    DotNames();
    DotStarts();
    DotEntry(DotStored(), c);
    DotEntry(DotDotStored(), parent);
    forall i | 0 <= i < |slots| ensures !Owning(slots[i]) {
      if i > 1 {
        assert slots[i][0] == 0;
      }
    }
  }

  /** fat16_create (fs/fat16.c:738-782) in directory d */
  method CreateIn(vol: FatVolume, d: nat, name: seq<byte>, directory: bool, ghost cat: Cat)
    returns (ok: bool, ghost cat': Cat, ghost i: nat, ghost e: Entry)
    requires vol.Valid() && Good(vol.View(), vol.geo, cat) && d in cat.dirs && Usable(name)
    modifies vol
    ensures vol.Valid()
    ensures ok <==> Creatable(old(vol.View()), vol.geo, cat, d, name, directory)
    ensures !ok ==> AllKept(old(vol.View()), vol.View(), vol.geo, cat, cat')
    ensures ok ==> SlotFilled(old(vol.View()), vol.View(), vol.geo, cat, cat', d, i, e)
    ensures ok ==> NameOf(e) == name && IsDir(e) == directory && SizeOf(e) == 0
    ensures ok ==> if directory then NewDir(vol.View(), vol.geo, cat', d, e) else FirstOf(e) == 0
    ensures ok && !directory ==>
              FreeIn(vol.View(), vol.geo) ==
                FreeIn(old(vol.View()), vol.geo) - GrownIn(old(vol.View()), vol.geo, cat, d)
  {
    hide Good, SlotFilled, RoomMade, AllKept, HasName, Furnishing, Walkable, Usable, NewEntry, CanWrite, SlotWritten,
         DirSlots, Holds, Listable, SlotsOf, Owning, FirstOf, SizeOf, IsDir, Furnished, NewDir, RoomIn, FreeIn, GrownIn;
    UsableSize(name);
    ghost var v, g := vol.View(), vol.geo;
    cat', i, e := cat, 0, Zeros(32);
    NothingKeeps(v, g, cat);
    GoodDir(v, g, cat, d);
    var exists_, at, old_ := FindInDir(vol, d, name, ChainOf(cat, d));
    HasNameIs(v, g, cat, d, name);
    if exists_ {
      return false, cat, 0, e;
    }
    var index;
    ok, index, cat' := MakeRoom(vol, d, cat);
    if !ok {
      return false, cat', 0, e;
    }
    i := index;
    ghost var w := vol.View();
    RoomKeeps(v, w, g, cat, cat', d, index);
    if directory {
      var c;
      ghost var cat1 := cat';
      HeadSmall(w, g, cat1, d);
      c, cat' := Furnish(vol, d, cat1);
      if c == 0 {
        return false, cat', i, e;
      }
      ghost var u := vol.View();
      ghost var k: nat :| Furnishing(w, u, g, c, k);
      var entry := NewEntry(name, DIRECTORY, c);
      NewEntryOwns(name, DIRECTORY, c);
      CanFillDir(v, w, u, g, cat, cat1, d, index, c, k, entry);
      FillSlot(u, g, cat', d, index, entry);
      WriteGoodDir(u, g, cat', d, index, entry);
      var wrote := WriteSlot(vol, d, index, entry, ChainOf(cat', d));
      NewDirMade(u, vol.View(), g, cat1, d, index, entry, c);
      FilledAfter(v, u, vol.View(), g, cat, cat', d, index, entry);
      return true, cat', index, entry;
    }
    var entry := NewEntry(name, ARCHIVE, 0);
    NewEntryOwns(name, ARCHIVE, 0);
    CanFill(v, w, g, cat, cat', d, index, entry);
    FillSlot(w, g, cat', d, index, entry);
    WriteGoodDir(w, g, cat', d, index, entry);
    var wrote := WriteSlot(vol, d, index, entry, ChainOf(cat', d));
    AllKeptMeans(v, w, g, cat, cat');
    WriteFrees(w, g, d, ChainOf(cat', d), index, entry);
    FilledAfter(v, w, vol.View(), g, cat, cat', d, index, entry);
    return true, cat', index, entry;
  }

  lemma WriteFrees(v: FatVol, g: Geometry, d: nat, s: seq<nat>, i: nat, e: Entry)
    requires DirOk(v, g, d, s) && (d == 0 || Holds(v.data, g.per, s)) && i < |DirSlots(v, g, d, s)|
    ensures FreeIn(SlotWritten(v, g, d, s, i, e), g) == FreeIn(v, g)
  {
    hide Slots, SlotWritten, FreeCount, Chain;
    SlotWrittenMeans(v, g, d, s, i, e);
  }

  lemma UsableSize(name: seq<byte>)
    requires Usable(name)
    ensures |name| == 11
  {
    hide DotName;
  }

  lemma AllKeptMeans(v: FatVol, w: FatVol, g: Geometry, cat: Cat, cat': Cat)
    requires AllKept(v, w, g, cat, cat')
    ensures Good(v, g, cat) && Good(w, g, cat') && forall a: nat, b: nat :: Owned(v, g, cat, a, b) ==>
              SlotKept(v, w, g, cat, cat', a, b)
    ensures NoneAdded(v, w, g, cat, cat')
  {
    hide Good, Owned, SlotKept, NoneAdded;
  }

  lemma WriteGoodDir(v: FatVol, g: Geometry, cat: Cat, d: nat, i: nat, e: Entry)
    requires CanWrite(v, g, cat, d, i, e)
    ensures Good(v, g, cat) && DirOk(v, g, d, ChainOf(cat, d)) && (d == 0 || Holds(v.data, g.per, ChainOf(cat, d)))
            && i < |DirSlots(v, g, d, ChainOf(cat, d))|
  {
    hide Good, Walkable, NoOther, Owning, EntryOk, Slots;
    GoodDir(v, g, cat, d);
  }

  lemma HasNameIs(v: FatVol, g: Geometry, cat: Cat, d: nat, name: seq<byte>)
    requires Listable(v, g, cat, d)
    ensures (d == 0 || Holds(v.data, g.per, ChainOf(cat, d)))
    ensures HasName(v, g, cat, d, name) <==>
            exists i ::
                0 <= i < |DirSlots(v, g, d, ChainOf(cat, d))| && Hit(DirSlots(v, g, d, ChainOf(cat, d))[i], name)
    ensures SlotsOf(v, g, cat, d) == DirSlots(v, g, d, ChainOf(cat, d))
  {
    hide Slots, Holds, DirSlots, Hit;
    var s := DirSlots(v, g, d, ChainOf(cat, d));
    assert SlotsOf(v, g, cat, d) == s;
    if i :| 0 <= i < |s| && Hit(s[i], name) {
      assert Hit(SlotsOf(v, g, cat, d)[i], name);
    }
  }

  lemma HeadSmall(v: FatVol, g: Geometry, cat: Cat, d: nat)
    requires Good(v, g, cat) && d in cat.dirs
    ensures d < TABLE
  {
    hide EntriesOk, OneOwner, SlotsOf, EndMarked, Chain;
    if d != 0 {
      assert Listable(v, g, cat, d);
      assert ChainOk(v, g, cat, d);
      HeadUsed(v.fat, g.max, cat.chains[d]);
    }
  }
}
