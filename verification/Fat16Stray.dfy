/**
 * fat16_rename (fs/fat16.c:805-831) to a path behind a file.  The driver does not ask
 * whether the new parent is a directory: it takes the file's clusters for slots, puts
 * the entry among the file's bytes and deletes the old slot.  The volume stays good,
 * and no slot owns the entry any more.
 */
module Fat16Stray {
  import Arith
  import opened Bytes
  import opened Fat16Table
  import opened Fat16Volume
  import opened Fat16Names
  import opened Fat16Dir
  import opened Fat16Tree
  import opened Fat16
  import opened Fat16Write
  import opened Fat16Change

  // ---- a file's chain is written or grows ----

  /** Chain h, no directory's, may differ in its bytes and be longer; nothing else changed. */
  ghost predicate FileTouched(v: FatVol, w: FatVol, g: Geometry, cat: Cat, cat': Cat, h: nat) {
    && Good(v, g, cat) && h in cat.chains && h !in cat.dirs
    && ChainsOk(w, g, cat') && cat'.dirs == cat.dirs && cat'.chains.Keys == cat.chains.Keys
    && |cat'.chains[h]| >= |cat.chains[h]|
    && (forall x :: x in cat.chains && x != h ==> cat'.chains[x] == cat.chains[x] && SameData(v, w, cat.chains[x]))
    && w.root == v.root && |w.data| == |v.data|
  }

  lemma TouchedGood(v: FatVol, w: FatVol, g: Geometry, cat: Cat, cat': Cat, h: nat)
    requires FileTouched(v, w, g, cat, cat', h)
    ensures Good(w, g, cat') && SameLists(v, w, g, cat, cat')
  {
    hide SlotsOf, Owning, EntryOk, Listable, EndMarked, Chain, Disjoint;
    assert forall x :: x in cat.dirs && x != 0 ==> x in cat.chains by { hide ChainsOk; DirsHaveChains(v, g, cat); }
    ListsStep(v, w, g, cat, cat');
    NewDirsOk(v, w, g, cat, cat');
    forall a: nat, b: nat | Owned(w, g, cat', a, b)
      ensures EntryOk(g, cat', SlotsOf(w, g, cat', a)[b]) && Owned(v, g, cat, a, b)
              && OwnedFirst(w, g, cat', a, b) == OwnedFirst(v, g, cat, a, b)
    {
      OwnedDir(w, g, cat', a, b);
      OwnersSame(v, w, g, cat, cat', a, b);
      LongerEntry(g, cat, cat', h, SlotsOf(v, g, cat, a)[b]);
    }
  }

  lemma LongerEntry(g: Geometry, cat: Cat, cat': Cat, h: nat, e: Entry)
    requires EntryOk(g, cat, e) && cat'.dirs == cat.dirs && cat'.chains.Keys == cat.chains.Keys && h in cat.chains
    requires |cat'.chains[h]| >= |cat.chains[h]| && forall x :: x in cat.chains && x != h ==>
               cat'.chains[x] == cat.chains[x]
    ensures EntryOk(g, cat', e)
  {
    Arith.Distr(|cat.chains[h]|, |cat'.chains[h]| - |cat.chains[h]|, g.Size());
    MulNat(|cat'.chains[h]| - |cat.chains[h]|, g.Size());
  }

  /** Every slot keeps its entry, and every file but the one that owns h its bytes. */
  lemma TouchedSlot(v: FatVol, w: FatVol, g: Geometry, cat: Cat, cat': Cat, h: nat, a: nat, b: nat)
    requires FileTouched(v, w, g, cat, cat', h) && Owned(v, g, cat, a, b)
    ensures Good(v, g, cat) && Good(w, g, cat') && Owned(w, g, cat', a, b)
            && SlotsOf(w, g, cat', a)[b] == SlotsOf(v, g, cat, a)[b]
    ensures OwnedFirst(v, g, cat, a, b) != h ==> SlotKept(v, w, g, cat, cat', a, b)
  {
    hide SlotsOf, Owning, EntryOk, Listable, ChainsOk, Good, SameData, SlotKept;
    TouchedGood(v, w, g, cat, cat', h);
    OwnedDir(v, g, cat, a, b);
    OwnedIn(v, g, cat, a, b);
    OwnedThere(w, v, g, cat', cat, a, b);
    if OwnedFirst(v, g, cat, a, b) != h {
      Kept(v, w, g, cat, cat', a, b);
    }
  }

  lemma TouchedAdds(v: FatVol, w: FatVol, g: Geometry, cat: Cat, cat': Cat, h: nat)
    requires FileTouched(v, w, g, cat, cat', h)
    ensures NoneAdded(v, w, g, cat, cat')
  {
    hide SlotsOf, Owning, EntryOk, Listable, ChainsOk, Good, SameData, Owned, SameLists;
    TouchedGood(v, w, g, cat, cat', h);
    forall a: nat, b: nat | Owned(w, g, cat', a, b) ensures Owned(v, g, cat, a, b) {
      OwnedDir(w, g, cat', a, b);
      OwnersSame(v, w, g, cat, cat', a, b);
    }
  }

  /** find_free_slot may have lengthened the file. */
  lemma TouchedRoom(v: FatVol, w: FatVol, g: Geometry, cat: Cat, h: nat, t: seq<nat>, index: nat)
    requires Good(v, g, cat) && h in cat.chains && h !in cat.dirs && h != 0
             && SlotFound(v, w, g, h, cat.chains[h], t, index)
    ensures FileTouched(v, w, g, cat, cat.(chains := cat.chains[h := t]), h)
    ensures Walkable(w, g, h, t) && Holds(w.data, g.per, t) && index < |Slots(w.data, g.per, t)|
  {
    hide Slots, Full, IsFree, DirsOk, EntriesOk, OneOwner, Chain;
    var s, cat' := cat.chains[h], cat.(chains := cat.chains[h := t]);
    assert ChainOk(v, g, cat, h);
    if t == s {
      assert cat' == cat;
      SameAll(v, g, cat);
    } else {
      var n := t[|t| - 1];
      ExtendChainsOk(v, w, g, cat, h, n);
      ExtendedChain(v, w, g, s, n);
      ExtendedSlots(v, w, g, s, n);
      ExtendedPer(v, w, g, s, n);
    }
    ChainHolds(w, g, t);
  }

  lemma SameAll(v: FatVol, g: Geometry, cat: Cat)
    requires ChainsOk(v, g, cat)
    ensures forall x :: x in cat.chains ==> SameData(v, v, cat.chains[x])
  {
    hide Chain;
    forall x | x in cat.chains ensures SameData(v, v, cat.chains[x]) {
      assert ChainOk(v, g, cat, x);
      DataItself(v, g, cat.chains[x]);
    }
  }

  /** An entry among a file's bytes touches only that file. */
  lemma TouchedWrite(v: FatVol, g: Geometry, cat: Cat, h: nat, index: nat, e: Entry)
    requires Good(v, g, cat) && h in cat.chains && h !in cat.dirs && h != 0 && Holds(v.data, g.per, cat.chains[h])
             && index < |Slots(v.data, g.per, cat.chains[h])|
    ensures FileTouched(v, SlotWritten(v, g, h, cat.chains[h], index, e), g, cat, cat, h)
  {
    hide Slots, SlotWritten, DirsOk, EntriesOk, OneOwner, Chain;
    var s, w := cat.chains[h], SlotWritten(v, g, h, cat.chains[h], index, e);
    assert ChainOk(v, g, cat, h);
    SlotWrittenMeans(v, g, h, s, index, e);
    forall x | x in cat.chains && x != h ensures SameData(v, w, cat.chains[x]) {
      assert ChainOk(v, g, cat, x) && Disjoint(cat.chains[x], s);
      forall c | c in cat.chains[x] ensures c < |v.data| && w.data[c] == v.data[c] {
        ChainUsed(v.fat, g.max, cat.chains[x], c);
      }
    }
    forall x | x in cat.chains ensures ChainOk(w, g, cat, x) {
      assert ChainOk(v, g, cat, x);
    }
  }

  // ---- the entry is lost ----

  /** Slot (d, i) owns nothing any more and no slot took its place; entries stay, and files but the one that owns h. */
  ghost predicate SlotLost(v: FatVol, w: FatVol, g: Geometry, cat: Cat, cat': Cat, d: nat, i: nat, h: nat) {
    && Good(v, g, cat) && Good(w, g, cat') && Owned(v, g, cat, d, i) && !Owned(w, g, cat', d, i)
    && NoneAdded(v, w, g, cat, cat')
    && (forall a: nat, b: nat :: Owned(v, g, cat, a, b) && (a != d || b != i) ==>
         LostOther(v, w, g, cat, cat', h, a, b))
  }

  ghost predicate LostOther(v: FatVol, w: FatVol, g: Geometry, cat: Cat, cat': Cat, h: nat, a: nat, b: nat)
    requires Good(v, g, cat) && Good(w, g, cat') && Owned(v, g, cat, a, b)
  {
    && Owned(w, g, cat', a, b) && SlotsOf(w, g, cat', a)[b] == SlotsOf(v, g, cat, a)[b]
    && (OwnedFirst(v, g, cat, a, b) != h ==> SlotKept(v, w, g, cat, cat', a, b))
  }

  lemma CanDelete(v: FatVol, g: Geometry, cat: Cat, d: nat, i: nat, e: Entry)
    requires Good(v, g, cat) && Owned(v, g, cat, d, i) && SlotsOf(v, g, cat, d)[i] == e
    ensures CanWrite(v, g, cat, d, i, Deleted(e))
  {
    hide ChainsOk, DirsOk, EntriesOk, OneOwner, SlotsOf, Listable, EndMarked, NoOther, Deleted, EntryOk, DotName;
    OwnedDir(v, g, cat, d, i);
    OwnedIn(v, g, cat, d, i);
    GoodDir(v, g, cat, d);
    OwningUsed(e);
    UsedBefore(SlotsOf(v, g, cat, d), i);
    DeletedReads(e);
  }

  /** Deleting a slot without freeing its chain. */
  lemma DeleteKeeps(v: FatVol, w: FatVol, g: Geometry, cat: Cat, d: nat, i: nat, e: Entry)
    requires Good(v, g, cat) && Owned(v, g, cat, d, i) && SlotsOf(v, g, cat, d)[i] == e
             && CanWrite(v, g, cat, d, i, Deleted(e))
    requires (d == 0 || Holds(v.data, g.per, ChainOf(cat, d))) && i < |DirSlots(v, g, d, ChainOf(cat, d))|
    requires w == SlotWritten(v, g, d, ChainOf(cat, d), i, Deleted(e))
    ensures Good(w, g, cat) && !Owned(w, g, cat, d, i) && NoneAdded(v, w, g, cat, cat)
            && OthersKept(v, w, g, cat, cat, d, i)
  {
    hide Good, SlotsOf, Owning, SlotWritten, NoOther, EntryOk, Holds, DirSlots, Listable, SlotKept, CanWrite, Deleted,
         Owned;
    SlotStep(v, g, cat, d, i, Deleted(e));
    OwnedIn(v, g, cat, d, i);
    DeletedReads(e);
    if Owned(w, g, cat, d, i) {
      OwnersAfter(v, g, cat, d, i, Deleted(e), d, i);
      assert false;
    }
    forall a: nat, b: nat | Owned(w, g, cat, a, b) ensures Owned(v, g, cat, a, b) {
      OwnersAfter(v, g, cat, d, i, Deleted(e), a, b);
    }
    forall a: nat, b: nat | Owned(v, g, cat, a, b) && (a != d || b != i) ensures SlotKept(v, w, g, cat, cat, a, b) {
      OwnedDir(v, g, cat, a, b);
      OwnedIn(v, g, cat, a, b);
      SlotStepDirs(v, g, cat, d, i, Deleted(e), a);
      FillChainKept(v, g, cat, d, i, Deleted(e), OwnedFirst(v, g, cat, a, b));
      Kept(v, w, g, cat, cat, a, b);
    }
  }

  /** Two touches in a row are one. */
  lemma TouchedTwice(v: FatVol, u: FatVol, w: FatVol, g: Geometry, cat: Cat, cat': Cat, h: nat)
    requires FileTouched(v, u, g, cat, cat', h) && FileTouched(u, w, g, cat', cat', h)
    ensures FileTouched(v, w, g, cat, cat', h)
  {
    hide Good, ChainsOk;
    forall x | x in cat.chains && x != h ensures SameData(v, w, cat.chains[x]) {
      assert SameData(v, u, cat.chains[x]) && SameData(u, w, cat'.chains[x]);
    }
  }

  lemma LostDone(v: FatVol, u: FatVol, w: FatVol, g: Geometry, cat: Cat, cat': Cat, d: nat, i: nat, e: Entry, h: nat)
    requires FileTouched(v, u, g, cat, cat', h) && Owned(v, g, cat, d, i)
    requires Good(u, g, cat') && Good(w, g, cat') && !Owned(w, g, cat', d, i) && NoneAdded(u, w, g, cat', cat')
             && OthersKept(u, w, g, cat', cat', d, i)
    ensures SlotLost(v, w, g, cat, cat', d, i, h)
  {
    hide Good, SlotsOf, Owned, SlotKept, ChainsOk, SameData;
    TouchedAdds(v, u, g, cat, cat', h);
    forall a: nat, b: nat | Owned(v, g, cat, a, b) && (a != d || b != i)
        ensures LostOther(v, w, g, cat, cat', h, a, b) {
      TouchedSlot(v, u, g, cat, cat', h, a, b);
      KeptEntry(u, w, g, cat', cat', a, b);
      if OwnedFirst(v, g, cat, a, b) != h {
        KeptTwice(v, u, w, g, cat, cat', cat', a, b);
      }
    }
  }

  lemma KeptEntry(v: FatVol, w: FatVol, g: Geometry, cat: Cat, cat': Cat, a: nat, b: nat)
    requires Good(v, g, cat) && Good(w, g, cat') && Owned(v, g, cat, a, b) && SlotKept(v, w, g, cat, cat', a, b)
    ensures Owned(w, g, cat', a, b) && SlotsOf(w, g, cat', a)[b] == SlotsOf(v, g, cat, a)[b]
  {
    hide Good, SlotsOf, Owned, Contents;
  }

  /** The scan behind file h lets the name in: it meets no such name and finds a free slot or a free cluster. */
  ghost predicate Admits(v: FatVol, g: Geometry, cat: Cat, h: nat, name: seq<byte>) {
    && h in cat.chains && Holds(v.data, g.per, cat.chains[h])
    && !Scanned(Slots(v.data, g.per, cat.chains[h]), name) && Roomy(v, g, h, Slots(v.data, g.per, cat.chains[h]))
  }

  lemma FileWalks(v: FatVol, g: Geometry, cat: Cat, h: nat)
    requires Good(v, g, cat) && h in cat.chains && h != 0
    ensures Walkable(v, g, h, cat.chains[h]) && Holds(v.data, g.per, cat.chains[h])
            && DirSlots(v, g, h, cat.chains[h]) == Slots(v.data, g.per, cat.chains[h])
  {
    hide DirsOk, EntriesOk, OneOwner, Chain, Slots;
    assert ChainOk(v, g, cat, h);
    ChainHolds(v, g, cat.chains[h]);
  }
}
