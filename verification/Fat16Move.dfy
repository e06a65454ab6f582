/**
 * The end of fat16_rename (fs/fat16.c:817-830): look for the name behind the new
 * parent's first cluster, find a slot there, copy the entry, mark the old slot
 * deleted.  Behind a directory this moves the entry; behind a file it loses it.
 */
module Fat16Move {
  import opened Bytes
  import opened Fat16Table
  import opened Fat16Volume
  import opened Fat16Names
  import opened Fat16Dir
  import opened Fat16Tree
  import opened Fat16
  import opened Fat16Change
  import opened Fat16Rename
  import opened Fat16Stray

  /** Slot i behind the head can be written. */
  ghost predicate Writable(v: FatVol, g: Geometry, head: nat, s: seq<nat>, i: nat) {
    Walkable(v, g, head, s) && (head == 0 || Holds(v.data, g.per, s)) && i < |DirSlots(v, g, head, s)|
  }

  lemma StillWritable(v: FatVol, g: Geometry, q: nat, t: seq<nat>, j: nat, e: Entry, d: nat, s: seq<nat>, i: nat)
    requires Writable(v, g, q, t, j) && Writable(v, g, d, s, i)
    ensures Writable(SlotWritten(v, g, q, t, j, e), g, d, s, i)
  {
    hide Chain, SlotWritten, Slots;
    SlotWrittenMeans(v, g, q, t, j, e);
  }

  /** The volume after both writes. */
  ghost function Copied(v: FatVol, g: Geometry, q: nat, t: seq<nat>, j: nat, r: Entry, d: nat, s: seq<nat>, i: nat,
      x: Entry): FatVol
    requires Writable(v, g, q, t, j) && Writable(v, g, d, s, i)
  {
    StillWritable(v, g, q, t, j, r, d, s, i);
    SlotWritten(SlotWritten(v, g, q, t, j, r), g, d, s, i, x)
  }

  /** fs/fat16.c:824-830: the copy, then the deletion mark */
  method CopyAndMark(vol: FatVolume, d: nat, i: nat, e: Entry, q: nat, j: nat, name: seq<byte>, ghost s: seq<nat>,
      ghost t: seq<nat>)
    requires vol.Valid() && |name| == 11 && Writable(vol.View(), vol.geo, q, t, j)
             && Writable(vol.View(), vol.geo, d, s, i)
    modifies vol
    ensures vol.Valid()
            && vol.View() == Copied(old(vol.View()), vol.geo, q, t, j, Renamed(e, name), d, s, i, Deleted(e))
  {
    hide Walkable, Holds, DirSlots, SlotWritten, Renamed, Deleted;
    StillWritable(vol.View(), vol.geo, q, t, j, Renamed(e, name), d, s, i);
    var wroteNew := WriteSlot(vol, q, j, Renamed(e, name), t);
    var wroteOld := WriteSlot(vol, d, i, Deleted(e), s);
  }

  /** A first cluster a parent can have: a directory's, or a file's. */
  ghost predicate IsHead(cat: Cat, q: nat) { q in cat.dirs || (q in cat.chains && q != 0) }

  /** What the scan sees behind head q. */
  lemma HeadWalks(v: FatVol, g: Geometry, cat: Cat, q: nat)
    requires Good(v, g, cat) && IsHead(cat, q)
    ensures Walkable(v, g, q, ChainOf(cat, q)) && (q == 0 || Holds(v.data, g.per, ChainOf(cat, q)))
    ensures q in cat.dirs ==> Listable(v, g, cat, q) && SlotsOf(v, g, cat, q) == DirSlots(v, g, q, ChainOf(cat, q))
    ensures q !in cat.dirs ==>
              q in cat.chains && q != 0 && ChainOf(cat, q) == cat.chains[q]
              && DirSlots(v, g, q, ChainOf(cat, q)) == Slots(v.data, g.per, cat.chains[q])
  {
    hide Good, Slots, Chain, Listable;
    if q in cat.dirs {
      GoodDir(v, g, cat, q);
      SlotsAre(v, g, cat, q);
    } else {
      FileWalks(v, g, cat, q);
    }
  }

  lemma ScanIs(v: FatVol, g: Geometry, cat: Cat, q: nat, name: seq<byte>)
    requires Good(v, g, cat) && q in cat.dirs
    ensures Listable(v, g, cat, q) && (Scanned(SlotsOf(v, g, cat, q), name) <==> HasName(v, g, cat, q, name))
  {
    hide Good, SlotsOf, Listable, Hit, EndMarked, Scanned;
    GoodDir(v, g, cat, q);
    SlotsAre(v, g, cat, q);
    ScannedAll(SlotsOf(v, g, cat, q), name);
  }

  /** Whether the move goes ahead. */
  ghost predicate Accepted(v: FatVol, g: Geometry, cat: Cat, q: nat, name: seq<byte>) {
    if q in cat.dirs then !HasName(v, g, cat, q, name) && RoomIn(v, g, cat, q) else Admits(v, g, cat, q, name)
  }

  lemma AcceptedIs(v: FatVol, g: Geometry, cat: Cat, q: nat, name: seq<byte>)
    requires Good(v, g, cat) && IsHead(cat, q)
    ensures q == 0 || Holds(v.data, g.per, ChainOf(cat, q))
    ensures var slots := DirSlots(v, g, q, ChainOf(cat, q)); Accepted(v, g, cat, q, name) <==>
              !Scanned(slots, name) && Roomy(v, g, q, slots)
  {
    hide Good, SlotsOf, Listable, Slots, Scanned, Roomy, HasName, Walkable;
    HeadWalks(v, g, cat, q);
    if q in cat.dirs {
      ScanIs(v, g, cat, q, name);
    }
  }

  /** What the move leaves. */
  ghost predicate Outcome(v: FatVol, w: FatVol, g: Geometry, cat: Cat, cat': Cat, d: nat, i: nat, q: nat, j: nat,
      name: seq<byte>) {
    if q in cat.dirs then SlotMoved(v, w, g, cat, cat', d, i, q, j, name) else SlotLost(v, w, g, cat, cat', d, i, q)
  }

  /** Once a slot is found, both writes have their places. */
  lemma Places(v: FatVol, u: FatVol, g: Geometry, cat: Cat, d: nat, i: nat, e: Entry, q: nat, t: seq<nat>, j: nat,
      name: seq<byte>)
    requires Good(v, g, cat) && Owned(v, g, cat, d, i) && SlotsOf(v, g, cat, d)[i] == e && IsHead(cat, q)
             && Usable(name) && |name| == 11
    requires SlotFound(v, u, g, q, ChainOf(cat, q), t, j)
    ensures var cat' := Roomed(cat, q, t); Writable(u, g, q, t, j) && Writable(u, g, d, ChainOf(cat', d), i)
    ensures Outcome(v, Copied(u, g, q, t, j, Renamed(e, name), d, ChainOf(Roomed(cat, q, t), d), i, Deleted(e)), g, cat,
            Roomed(cat, q, t), d, i, q, j, name)
  {
    hide Good, SlotsOf, Owned, SlotFound, Renamed, Deleted, SlotMoved, SlotLost, Usable, Writable, Copied;
    if q in cat.dirs {
      PlacesDir(v, u, g, cat, d, i, e, q, t, j, name);
    } else {
      PlacesFile(v, u, g, cat, d, i, e, q, t, j, name);
    }
  }

  lemma PlacesDir(v: FatVol, u: FatVol, g: Geometry, cat: Cat, d: nat, i: nat, e: Entry, q: nat, t: seq<nat>, j: nat,
      name: seq<byte>)
    requires Good(v, g, cat) && Owned(v, g, cat, d, i) && SlotsOf(v, g, cat, d)[i] == e && q in cat.dirs && Usable(name)
             && |name| == 11
    requires SlotFound(v, u, g, q, ChainOf(cat, q), t, j)
    ensures var cat' := Roomed(cat, q, t); Writable(u, g, q, t, j) && Writable(u, g, d, ChainOf(cat', d), i)
    ensures SlotMoved(v, Copied(u, g, q, t, j, Renamed(e, name), d, ChainOf(Roomed(cat, q, t), d), i, Deleted(e)), g,
            cat, Roomed(cat, q, t), d, i, q, j, name)
  {
    hide Good, SlotsOf, Owned, SlotFound, Renamed, Deleted, SlotMoved, Usable, RoomMade, CanShift, SlotKept, DirSlots,
         Holds, SlotWritten, Walkable;
    var cat' := Roomed(cat, q, t);
    RoomFound(v, u, g, cat, q, t, j);
    ShiftReady(v, u, g, cat, cat', d, i, e, q, j);
    ShiftWrites(u, g, cat', d, i, e, q, j, name);
    RoomedChain(v, u, g, cat, q, t, j);
    WroteUnfolds(u, g, cat', q, j, Renamed(e, name));
    WroteUnfolds(u, g, cat', d, i, Deleted(e));
    WroteUnfolds(Wrote(u, g, cat', q, j, Renamed(e, name)), g, cat', d, i, Deleted(e));
    MovedAfter(v, u, Wrote(Wrote(u, g, cat', q, j, Renamed(e, name)), g, cat', d, i, Deleted(e)), g, cat, cat', d, i, q,
      j, name);
  }

  lemma RoomedChain(v: FatVol, u: FatVol, g: Geometry, cat: Cat, q: nat, t: seq<nat>, j: nat)
    requires SlotFound(v, u, g, q, ChainOf(cat, q), t, j)
    ensures ChainOf(Roomed(cat, q, t), q) == t
  {
    hide Holds, DirSlots, Full, Extended, IsFree;
  }

  lemma PlacesFile(v: FatVol, u: FatVol, g: Geometry, cat: Cat, d: nat, i: nat, e: Entry, q: nat, t: seq<nat>, j: nat,
      name: seq<byte>)
    requires Good(v, g, cat) && Owned(v, g, cat, d, i) && SlotsOf(v, g, cat, d)[i] == e && q in cat.chains
             && q !in cat.dirs && q != 0 && |name| == 11
    requires SlotFound(v, u, g, q, ChainOf(cat, q), t, j)
    ensures var cat' := Roomed(cat, q, t); Writable(u, g, q, t, j) && Writable(u, g, d, ChainOf(cat', d), i)
    ensures SlotLost(v, Copied(u, g, q, t, j, Renamed(e, name), d, ChainOf(Roomed(cat, q, t), d), i, Deleted(e)), g,
            cat, Roomed(cat, q, t), d, i, q)
  {
    hide Good, SlotsOf, Owned, SlotFound, Renamed, Deleted, SlotLost, FileTouched, Slots, Holds, SlotWritten, Walkable,
         CanWrite, NoneAdded, OthersKept;
    var cat' := Roomed(cat, q, t);
    TouchedRoom(v, u, g, cat, q, t, j);
    TouchedGood(v, u, g, cat, cat', q);
    TouchedWrite(u, g, cat', q, j, Renamed(e, name));
    var w := SlotWritten(u, g, q, t, j, Renamed(e, name));
    TouchedTwice(v, u, w, g, cat, cat', q);
    TouchedGood(v, w, g, cat, cat', q);
    TouchedSlot(v, u, g, cat, cat', q, d, i);
    TouchedSlot(v, w, g, cat, cat', q, d, i);
    CanDelete(u, g, cat', d, i, e);
    CanDelete(w, g, cat', d, i, e);
    WriteGoodDir(u, g, cat', d, i, Deleted(e));
    WriteGoodDir(w, g, cat', d, i, Deleted(e));
    var z := SlotWritten(w, g, d, ChainOf(cat', d), i, Deleted(e));
    DeleteKeeps(w, z, g, cat', d, i, e);
    LostDone(v, w, z, g, cat, cat', d, i, e, q);
  }

  /** fs/fat16.c:817-830 for the entry e of slot (d, i) and the new parent's first cluster q */
  method Move(vol: FatVolume, d: nat, i: nat, e: Entry, q: nat, name: seq<byte>, ghost cat: Cat)
    returns (ok: bool, ghost cat': Cat, ghost j: nat)
    requires vol.Valid() && Good(vol.View(), vol.geo, cat) && Owned(vol.View(), vol.geo, cat, d, i)
             && SlotsOf(vol.View(), vol.geo, cat, d)[i] == e
    requires IsHead(cat, q) && Usable(name)
    modifies vol
    ensures vol.Valid()
    ensures ok <==> Accepted(old(vol.View()), vol.geo, cat, q, name)
    ensures !ok ==> vol.View() == old(vol.View()) && cat' == cat
    ensures ok ==> Outcome(old(vol.View()), vol.View(), vol.geo, cat, cat', d, i, q, j, name)
  {
    hide Good, SlotsOf, Owned, SlotFound, Roomy, Scanned, Usable, Walkable, Holds, DirSlots, Accepted, Outcome,
         Writable, Copied, IsHead, Hit;
    ghost var v, g := vol.View(), vol.geo;
    UsableSize(name);
    HeadWalks(v, g, cat, q);
    AcceptedIs(v, g, cat, q, name);
    cat', j := cat, 0;
    var exists_, at, old_ := FindInDir(vol, q, name, ChainOf(cat, q));
    if exists_ {
      return false, cat, 0;
    }
    var index;
    ghost var t;
    ok, index, t := FindFreeSlot(vol, q, ChainOf(cat, q));
    if !ok {
      return false, cat, 0;
    }
    j, cat' := index, Roomed(cat, q, t);
    Places(v, vol.View(), g, cat, d, i, e, q, t, index, name);
    CopyAndMark(vol, d, i, e, q, index, name, ChainOf(cat', d), t);
  }

  // ---- renaming the root ----

  /** The entry path_lookup makes up for "/" (fs/fat16.c:360-365); its slot reads as slot 0 of the root directory. */
  function RootEntry(): Entry { Zeros(32)[11 := DIRECTORY] }

  lemma RootEntryReads(name: seq<byte>)
    requires Usable(name)
    ensures |name| == 11
    ensures var r := Renamed(RootEntry(), name); Owning(r) && IsDir(r) && FirstOf(r) == 0
    ensures Deleted(RootEntry())[0] == DELETED && !Owning(Deleted(RootEntry()))
  {
    hide DotName, Renamed;
    UsableSize(name);
    RenamedReads(RootEntry(), name);
    DeletedReads(RootEntry());
  }

  lemma RootSlotOk(w: FatVol, g: Geometry, cat: Cat, j: nat)
    requires Good(w, g, cat) && j < |w.root| && Owning(w.root[j])
    ensures EntryOk(g, cat, w.root[j])
  {
    hide ChainsOk, OneOwner, Owning, EntryOk, EndMarked;
    assert SlotsOf(w, g, cat, 0) == w.root;
    assert Owned(w, g, cat, 0, j);
  }

  /** A root slot that names a directory without a cluster fits no catalog. */
  lemma NeverGood(w: FatVol, g: Geometry, cat: Cat, j: nat)
    requires j < |w.root| && Owning(w.root[j]) && IsDir(w.root[j]) && FirstOf(w.root[j]) == 0
    ensures !Good(w, g, cat)
  {
    hide Good, Owning, FirstOf;
    if Good(w, g, cat) {
      RootSlotOk(w, g, cat, j);
      assert false;
    }
  }

  /** A slot of a listed directory that names a directory without a cluster does not fit the catalog. */
  lemma NotGoodBelow(w: FatVol, g: Geometry, cat: Cat, q: nat, j: nat)
    requires q in cat.dirs && (q == 0 || Holds(w.data, g.per, ChainOf(cat, q)))
             && j < |DirSlots(w, g, q, ChainOf(cat, q))|
    requires var e := DirSlots(w, g, q, ChainOf(cat, q))[j]; Owning(e) && IsDir(e) && FirstOf(e) == 0
    ensures !Good(w, g, cat)
  {
    hide Good, Owning, FirstOf, DirSlots, Holds;
    if Good(w, g, cat) {
      SlotOk(w, g, cat, q, j);
      assert false;
    }
  }

  lemma SlotOk(w: FatVol, g: Geometry, cat: Cat, q: nat, j: nat)
    requires Good(w, g, cat) && q in cat.dirs && (q == 0 || Holds(w.data, g.per, ChainOf(cat, q)))
    requires j < |DirSlots(w, g, q, ChainOf(cat, q))| && Owning(DirSlots(w, g, q, ChainOf(cat, q))[j])
    ensures EntryOk(g, cat, DirSlots(w, g, q, ChainOf(cat, q))[j])
  {
    hide ChainsOk, OneOwner, Owning, EntryOk, EndMarked, DirSlots, Holds;
    ListedIs(w, g, cat, q);
    assert Owned(w, g, cat, q, j);
  }

  /** Where the made-up entry and the deletion mark go: slot j behind q, then slot 0 of the root. */
  ghost function RootMoved(u: FatVol, g: Geometry, q: nat, t: seq<nat>, j: nat, name: seq<byte>): FatVol
    requires |name| == 11 && Writable(u, g, q, t, j) && Writable(u, g, 0, [], 0)
  {
    Copied(u, g, q, t, j, Renamed(RootEntry(), name), 0, [], 0, Deleted(RootEntry()))
  }

  lemma RootMovedIs(u: FatVol, g: Geometry, q: nat, t: seq<nat>, j: nat, name: seq<byte>)
    requires |name| == 11 && Writable(u, g, q, t, j) && Writable(u, g, 0, [], 0)
    ensures var w, r := RootMoved(u, g, q, t, j, name), Renamed(RootEntry(), name);
            && |w.root| > 0 && w.root[0] == Deleted(RootEntry()) && (q == 0 || Holds(w.data, g.per, t))
            && (q != 0 || j != 0 ==> j < |DirSlots(w, g, q, t)| && DirSlots(w, g, q, t)[j] == r)
  {
    hide Walkable, Slots, Renamed, Deleted, RootEntry, Put, Slot;
    StillWritable(u, g, q, t, j, Renamed(RootEntry(), name), 0, [], 0);
    SlotWrittenMeans(u, g, q, t, j, Renamed(RootEntry(), name));
  }

  /** Deleting slot 0 of the root without freeing anything keeps a volume good. */
  lemma MarkRoot(v: FatVol, g: Geometry, cat: Cat, e: Entry)
    requires Good(v, g, cat) && |v.root| > 0 && e[0] == DELETED && !Owning(e)
    ensures Good(v.(root := v.root[0 := e]), g, cat)
  {
    hide Good, SlotsOf, Owning, NoOther, EntryOk;
    RootDir(v, g, cat);
    GoodDir(v, g, cat, 0);
    SlotsAre(v, g, cat, 0);
    assert CanWrite(v, g, cat, 0, 0, e);
    SlotStep(v, g, cat, 0, 0, e);
  }

  /** Behind a file only that file and the first root slot change. */
  lemma RootIntoFile(v: FatVol, u: FatVol, g: Geometry, cat: Cat, q: nat, t: seq<nat>, j: nat, name: seq<byte>)
    requires Good(v, g, cat) && IsHead(cat, q) && q !in cat.dirs && |v.root| > 0 && Usable(name) && |name| == 11
    requires SlotFound(v, u, g, q, ChainOf(cat, q), t, j) && Writable(u, g, q, t, j) && Writable(u, g, 0, [], 0)
    ensures Good(RootMoved(u, g, q, t, j, name), g, Roomed(cat, q, t))
  {
    hide Good, SlotFound, FileTouched, Renamed, Deleted, RootEntry, Usable, Walkable, Owning, Slots, Holds, SlotWritten;
    var cat', r, x := Roomed(cat, q, t), Renamed(RootEntry(), name), Deleted(RootEntry());
    RootDir(v, g, cat);
    TouchedRoom(v, u, g, cat, q, t, j);
    TouchedGood(v, u, g, cat, cat', q);
    TouchedWrite(u, g, cat', q, j, r);
    var w := SlotWritten(u, g, q, t, j, r);
    TouchedGood(u, w, g, cat', cat', q);
    RootEntryReads(name);
    StillWritable(u, g, q, t, j, r, 0, [], 0);
    RootWritten(w, g, x);
    MarkRoot(w, g, cat', x);
  }

  lemma RootWritten(w: FatVol, g: Geometry, x: Entry)
    requires Writable(w, g, 0, [], 0)
    ensures |w.root| > 0 && SlotWritten(w, g, 0, [], 0, x) == w.(root := w.root[0 := x])
  {
  }

  /** The places of both writes, and whether the catalog fits afterwards. */
  lemma RootCase(v: FatVol, u: FatVol, g: Geometry, cat: Cat, q: nat, t: seq<nat>, j: nat, name: seq<byte>)
    requires Good(v, g, cat) && IsHead(cat, q) && |v.root| > 0 && Usable(name) && |name| == 11
    requires SlotFound(v, u, g, q, ChainOf(cat, q), t, j)
    ensures Writable(u, g, q, t, j) && Writable(u, g, 0, [], 0)
    ensures Good(RootMoved(u, g, q, t, j, name), g, Roomed(cat, q, t)) <==> q !in cat.dirs || (q == 0 && j == 0)
    ensures q == 0 ==> u == v && (j == 0 <==> IsFree(v.root[0]))
  {
    hide Good, SlotFound, Renamed, Deleted, RootEntry, Usable, Walkable, Owning, RootMoved, RoomMade, FileTouched,
         DirSlots, Holds, IsDir, FirstOf, IsFree, Listable;
    FoundPlaces(v, u, g, cat, q, t, j);
    RootEntryReads(name);
    var w, cat' := RootMoved(u, g, q, t, j, name), Roomed(cat, q, t);
    if q !in cat.dirs {
      RootIntoFile(v, u, g, cat, q, t, j, name);
    } else if q == 0 && j == 0 {
      RootSlotFree(v, w, g, cat, t, name);
    } else {
      RootMovedIs(u, g, q, t, j, name);
      RoomedChain(v, u, g, cat, q, t, j);
      NotGoodBelow(w, g, cat', q, j);
    }
  }

  lemma FoundPlaces(v: FatVol, u: FatVol, g: Geometry, cat: Cat, q: nat, t: seq<nat>, j: nat)
    requires Good(v, g, cat) && IsHead(cat, q) && |v.root| > 0 && SlotFound(v, u, g, q, ChainOf(cat, q), t, j)
    ensures Writable(u, g, q, t, j) && Writable(u, g, 0, [], 0)
    ensures q == 0 ==> u == v && t == ChainOf(cat, 0) && (j == 0 <==> IsFree(v.root[0]))
  {
    hide Good, Slots, Chain, IsFree, Shaped;
    HeadWalks(v, g, cat, q);
    if t != ChainOf(cat, q) {
      var n := t[|t| - 1];
      ExtendedChain(v, u, g, ChainOf(cat, q), n);
      ExtendedSlots(v, u, g, ChainOf(cat, q), n);
      ExtendedPer(v, u, g, ChainOf(cat, q), n);
      ChainSome(v.fat, g.max, ChainOf(cat, q));
      assert t[0] == q;
    }
  }

  lemma RootSlotFree(v: FatVol, w: FatVol, g: Geometry, cat: Cat, t: seq<nat>, name: seq<byte>)
    requires Good(v, g, cat) && Writable(v, g, 0, t, 0) && Writable(v, g, 0, [], 0) && |name| == 11 && Usable(name)
    requires w == RootMoved(v, g, 0, t, 0, name)
    ensures Good(w, g, cat)
  {
    hide Good, Walkable, Owning, Renamed, Deleted, RootEntry, Usable;
    RootEntryReads(name);
    var r, x := Renamed(RootEntry(), name), Deleted(RootEntry());
    assert v.root[0 := r][0 := x] == v.root[0 := x];
    MarkRoot(v, g, cat, x);
  }

  /**
   * fat16_rename of "/" to a name behind first cluster q, which the driver does not refuse.  The
   * first root slot is marked deleted.  The catalog still fits exactly if q is a file's, or the root's
   * with its first slot free; below the root no catalog at all fits otherwise.
   */
  method RenameRoot(vol: FatVolume, q: nat, name: seq<byte>, ghost cat: Cat) returns (ok: bool, ghost cat': Cat)
    requires vol.Valid() && Good(vol.View(), vol.geo, cat) && IsHead(cat, q) && Usable(name)
             && (q == 0 || |vol.root| > 0)
    modifies vol
    ensures vol.Valid()
    ensures ok <==> Accepted(old(vol.View()), vol.geo, cat, q, name)
    ensures !ok ==> vol.View() == old(vol.View()) && cat' == cat
    ensures ok ==> |old(vol.root)| > 0 && |vol.root| > 0 && vol.root[0] == Deleted(RootEntry())
    ensures ok ==> (Good(vol.View(), vol.geo, cat') <==> q !in cat.dirs || (q == 0 && IsFree(old(vol.root)[0])))
    ensures ok && q == 0 ==> ((exists c :: Good(vol.View(), vol.geo, c)) <==> IsFree(old(vol.root)[0]))
  {
    hide Good, SlotsOf, Scanned, Usable, Walkable, Owning, IsDir, FirstOf, Renamed, Deleted, RootEntry, Hit, Accepted,
         Roomy, IsFree, SlotFound, IsHead, DirSlots, Holds, RootMoved;
    ghost var v, g := vol.View(), vol.geo;
    UsableSize(name);
    HeadWalks(v, g, cat, q);
    AcceptedIs(v, g, cat, q, name);
    cat' := cat;
    var exists_, at, old_ := FindInDir(vol, q, name, ChainOf(cat, q));
    if exists_ {
      return false, cat;
    }
    var index;
    ghost var t;
    ok, index, t := FindFreeSlot(vol, q, ChainOf(cat, q));
    if !ok {
      return false, cat;
    }
    ghost var u := vol.View();
    RootHasSlot(v, u, g, cat, q, t, index);
    cat' := Roomed(cat, q, t);
    RootCase(v, u, g, cat, q, t, index, name);
    RootMovedUnfolds(u, g, q, t, index, name);
    CopyAndMark(vol, 0, 0, RootEntry(), q, index, name, [], t);
    RootMovedIs(u, g, q, t, index, name);
    RootEntryReads(name);
    if q == 0 && index != 0 {
      forall c ensures !Good(vol.View(), g, c) {
        RootListed(vol.View(), g, t);
        NeverGood(vol.View(), g, c, index);
      }
    } else if q == 0 {
      RoomedRoot(cat, t);
    }
  }

  lemma RootHasSlot(v: FatVol, u: FatVol, g: Geometry, cat: Cat, q: nat, t: seq<nat>, j: nat)
    requires SlotFound(v, u, g, q, ChainOf(cat, q), t, j) && (q == 0 || |v.root| > 0)
    ensures |v.root| > 0
  {
    hide Holds, Slots, Extended, IsFree;
  }

  lemma RootMovedUnfolds(u: FatVol, g: Geometry, q: nat, t: seq<nat>, j: nat, name: seq<byte>)
    requires |name| == 11 && Writable(u, g, q, t, j) && Writable(u, g, 0, [], 0)
    ensures RootMoved(u, g, q, t, j, name)
         == Copied(u, g, q, t, j, Renamed(RootEntry(), name), 0, [], 0, Deleted(RootEntry()))
  {
    hide Copied, Renamed, Deleted, RootEntry;
  }

  lemma RootListed(w: FatVol, g: Geometry, t: seq<nat>)
    ensures DirSlots(w, g, 0, t) == w.root
  {
  }

  lemma RoomedRoot(cat: Cat, t: seq<nat>)
    ensures Roomed(cat, 0, t) == cat
  {
  }
}
