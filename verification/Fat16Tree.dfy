/**
 * The whole-volume invariant of FAT16 (fs/fat16.c): the chains of distinct entries
 * are disjoint, acyclic and end-marked, and directories end at their first unused
 * slot.  A catalog names the chains by first cluster and says which are directories.
 */
module Fat16Tree {
  import opened Arith
  import opened Bytes
  import opened Fat16Table
  import opened Fat16Volume
  import opened Fat16Names
  import opened Fat16Dir

  /** The chains on the volume, and the heads of the directories (0 for the root). */
  datatype Cat = Cat(chains: map<nat, seq<nat>>, dirs: set<nat>)

  ghost predicate Disjoint(a: seq<nat>, b: seq<nat>) {
    forall x :: x in a ==> x !in b
  }

  ghost predicate ChainOk(v: FatVol, g: Geometry, cat: Cat, h: nat)
    requires h in cat.chains
  {
    Chain(v.fat, g.max, cat.chains[h]) && cat.chains[h][0] == h
  }

  ghost predicate Apart(cat: Cat) {
    forall h, k :: h in cat.chains && k in cat.chains && h != k ==> Disjoint(cat.chains[h], cat.chains[k])
  }

  ghost predicate ChainsOk(v: FatVol, g: Geometry, cat: Cat) {
    Shaped(v, g) && Apart(cat) && forall h :: h in cat.chains ==> ChainOk(v, g, cat, h)
  }

  ghost function ChainOf(cat: Cat, d: nat): seq<nat> {
    if d in cat.chains then cat.chains[d] else []
  }

  /** The slots of directory d can be listed. */
  ghost predicate Listable(v: FatVol, g: Geometry, cat: Cat, d: nat) {
    d in cat.dirs
      && (d == 0 || (d in cat.chains && Holds(v.data, g.per, cat.chains[d]) && |cat.chains[d]| * g.per <= MAX_SLOTS))
  }

  ghost function SlotsOf(v: FatVol, g: Geometry, cat: Cat, d: nat): seq<Entry>
    requires Listable(v, g, cat, d)
  {
    DirSlots(v, g, d, ChainOf(cat, d))
  }

  ghost predicate DirsOk(v: FatVol, g: Geometry, cat: Cat) {
    0 in cat.dirs && forall d :: d in cat.dirs ==> Listable(v, g, cat, d) && EndMarked(SlotsOf(v, g, cat, d))
  }

  /** An entry that owns a chain: in use, visible, and not "." or "..". */
  predicate Owning(e: Entry) { Visible(e) && !DotName(NameOf(e)) }

  /** What an owning entry says: an empty file, or a chain of its kind long enough for its size. */
  ghost predicate EntryOk(g: Geometry, cat: Cat, e: Entry) {
    if FirstOf(e) == 0 then !IsDir(e) && SizeOf(e) == 0
    else
      && FirstOf(e) in cat.chains && (IsDir(e) <==> FirstOf(e) in cat.dirs)
      && (!IsDir(e) ==> SizeOf(e) <= |cat.chains[FirstOf(e)]| * g.Size())
  }

  ghost predicate Owned(v: FatVol, g: Geometry, cat: Cat, d: nat, i: nat) {
    Listable(v, g, cat, d) && i < |SlotsOf(v, g, cat, d)| && Owning(SlotsOf(v, g, cat, d)[i])
  }

  ghost function OwnedFirst(v: FatVol, g: Geometry, cat: Cat, d: nat, i: nat): nat
    requires Owned(v, g, cat, d, i)
  {
    FirstOf(SlotsOf(v, g, cat, d)[i])
  }

  ghost predicate EntriesOk(v: FatVol, g: Geometry, cat: Cat) {
    forall d: nat, i: nat :: Owned(v, g, cat, d, i) ==> EntryOk(g, cat, SlotsOf(v, g, cat, d)[i])
  }

  /** No two slots own the same chain. */
  ghost predicate OneOwner(v: FatVol, g: Geometry, cat: Cat) {
    forall d: nat, i: nat, e: nat, j: nat :: Owned(v, g, cat, d, i) && Owned(v, g, cat, e, j) && (d != e || i != j) ==>
                                               OwnedFirst(v, g, cat, d, i) == 0
                                                 || OwnedFirst(v, g, cat, d, i) != OwnedFirst(v, g, cat, e, j)
  }

  ghost predicate Good(v: FatVol, g: Geometry, cat: Cat) {
    ChainsOk(v, g, cat) && DirsOk(v, g, cat) && EntriesOk(v, g, cat) && OneOwner(v, g, cat)
  }

  // ---- frames ----

  lemma GoodDir(v: FatVol, g: Geometry, cat: Cat, d: nat)
    requires Good(v, g, cat) && d in cat.dirs
    ensures Listable(v, g, cat, d) && DirOk(v, g, d, ChainOf(cat, d)) && EndMarked(SlotsOf(v, g, cat, d))
  {
    hide EntriesOk, OneOwner, Chain;
    if d != 0 {
      assert ChainOk(v, g, cat, d);
    }
  }

  /** The clusters of s hold the same bytes. */
  ghost predicate SameData(v: FatVol, w: FatVol, s: seq<nat>) {
    |w.data| == |v.data| && forall c :: c in s ==> c < |v.data| && w.data[c] == v.data[c]
  }

  /** The clusters of s have the same table entries. */
  ghost predicate SameLinks(v: FatVol, w: FatVol, s: seq<nat>) {
    |w.fat| == |v.fat| == TABLE && forall c :: c in s ==> c < TABLE && w.fat[c] == v.fat[c]
  }

  /** A directory whose storage and chain did not change lists the same. */
  lemma SameSlots(v: FatVol, w: FatVol, g: Geometry, cat: Cat, cat': Cat, d: nat)
    requires Listable(v, g, cat, d) && d in cat'.dirs && |w.data| == |v.data|
    requires d == 0 ==> w.root == v.root
    requires d != 0 ==> d in cat'.chains && cat'.chains[d] == cat.chains[d] && SameData(v, w, cat.chains[d])
    ensures Listable(w, g, cat', d) && SlotsOf(w, g, cat', d) == SlotsOf(v, g, cat, d)
  {
    hide Slot;
    if d != 0 {
      var s := cat.chains[d];
      forall i: nat | i < |s| ensures s[i] < |w.data| && |w.data[s[i]]| == 32 * g.per {
        assert s[i] in s;
      }
      assert Holds(w.data, g.per, s);
      forall i: nat | i < |s| * g.per ensures Slot(w.data, g.per, s, i) == Slot(v.data, g.per, s, i) {
        SameSlot(v.data, w.data, g.per, s, i);
      }
      assert Slots(w.data, g.per, s) == Slots(v.data, g.per, s);
    }
  }

  lemma SameSlot(d: seq<Cluster>, e: seq<Cluster>, per: nat, s: seq<nat>, i: nat)
    requires Holds(d, per, s) && Holds(e, per, s) && i < |s| * per && forall c :: c in s ==>
               c < |d| && c < |e| && e[c] == d[c]
    ensures Slot(e, per, s, i) == Slot(d, per, s, i)
  {
    SlotPlace(per, |s|, i);
    assert s[i / per] in s;
  }

  /** Clusters of a chain are in use. */
  lemma ChainUsed(f: seq<nat>, max: nat, s: seq<nat>, x: nat)
    requires Chain(f, max, s) && x in s
    ensures x < TABLE && x < max && f[x] != FREE
  {
    var i: nat :| i < |s| && s[i] == x;
    ChainAt(f, max, s, i);
    if i + 1 < |s| {
      ChainAt(f, max, s, i + 1);
    }
  }

  lemma KeptChain(v: FatVol, w: FatVol, g: Geometry, cat: Cat, cat': Cat, h: nat)
    requires h in cat.chains && ChainOk(v, g, cat, h) && h in cat'.chains && cat'.chains[h] == cat.chains[h]
             && |w.fat| == TABLE
    requires SameLinks(v, w, cat.chains[h])
    ensures ChainOk(w, g, cat', h)
  {
    ChainKept(v.fat, w.fat, g.max, cat.chains[h]);
  }

  // ---- one slot rewritten ----

  /** Entry e may go into slot i of directory d. */
  ghost predicate CanWrite(v: FatVol, g: Geometry, cat: Cat, d: nat, i: nat, e: Entry) {
    && Good(v, g, cat) && d in cat.dirs && Listable(v, g, cat, d) && i < |SlotsOf(v, g, cat, d)| && e[0] != UNUSED
    && (forall j :: 0 <= j < i ==> SlotsOf(v, g, cat, d)[j][0] != UNUSED)
    && (Owning(e) ==> EntryOk(g, cat, e) && (FirstOf(e) != 0 ==> NoOther(v, g, cat, d, i, FirstOf(e))))
  }

  /** No other slot owns chain h. */
  ghost predicate NoOther(v: FatVol, g: Geometry, cat: Cat, d: nat, i: nat, h: nat) {
    forall a: nat, b: nat :: Owned(v, g, cat, a, b) && (a != d || b != i) ==> OwnedFirst(v, g, cat, a, b) != h
  }

  lemma SlotStepDirs(v: FatVol, g: Geometry, cat: Cat, d: nat, i: nat, e: Entry, a: nat)
    requires CanWrite(v, g, cat, d, i, e) && a in cat.dirs
    ensures (d == 0 || Holds(v.data, g.per, ChainOf(cat, d))) && i < |DirSlots(v, g, d, ChainOf(cat, d))|
            && Listable(v, g, cat, a)
    ensures var w := SlotWritten(v, g, d, ChainOf(cat, d), i, e);
            && Listable(w, g, cat, a) && w.fat == v.fat && Shaped(w, g)
            && SlotsOf(w, g, cat, a) == if a == d then SlotsOf(v, g, cat, a)[i := e] else SlotsOf(v, g, cat, a)
  {
    hide EntriesOk, OneOwner, Chain, Slots, SlotWritten, NoOther, EntryOk;
    GoodDir(v, g, cat, d);
    GoodDir(v, g, cat, a);
    SlotWrittenMeans(v, g, d, ChainOf(cat, d), i, e);
    var w := SlotWritten(v, g, d, ChainOf(cat, d), i, e);
    if a != d {
      if a != 0 && d != 0 {
        assert Disjoint(cat.chains[a], cat.chains[d]);
      }
      if a != 0 {
        assert ChainOk(v, g, cat, a);
        forall c | c in cat.chains[a] ensures c < |v.data| && w.data[c] == v.data[c] {
          ChainUsed(v.fat, g.max, cat.chains[a], c);
        }
        assert SameData(v, w, cat.chains[a]);
      }
      SameSlots(v, w, g, cat, cat, a);
    }
  }

  lemma SlotStep(v: FatVol, g: Geometry, cat: Cat, d: nat, i: nat, e: Entry)
    requires CanWrite(v, g, cat, d, i, e)
    ensures (d == 0 || Holds(v.data, g.per, ChainOf(cat, d))) && i < |DirSlots(v, g, d, ChainOf(cat, d))|
    ensures var w := SlotWritten(v, g, d, ChainOf(cat, d), i, e);
            Good(w, g, cat) && forall c: nat :: c < |v.data| && c !in ChainOf(cat, d) ==> w.data[c] == v.data[c]
  {
    hide Chain, Slots, SlotWritten, EntryOk, Owning, EndMarked;
    GoodDir(v, g, cat, d);
    SlotWrittenMeans(v, g, d, ChainOf(cat, d), i, e);
    var w := SlotWritten(v, g, d, ChainOf(cat, d), i, e);
    forall a | a in cat.dirs
      ensures Listable(v, g, cat, a) && Listable(w, g, cat, a)
              && SlotsOf(w, g, cat, a) == (if a == d then SlotsOf(v, g, cat, a)[i := e] else SlotsOf(v, g, cat, a))
              && EndMarked(SlotsOf(w, g, cat, a))
    {
      SlotStepDirs(v, g, cat, d, i, e, a);
      if a == d {
        StillMarked(SlotsOf(v, g, cat, d), i, e);
      } else {
        GoodDir(v, g, cat, a);
      }
    }
    hide DirOk;
    assert ChainsOk(w, g, cat) by {
      forall h | h in cat.chains ensures ChainOk(w, g, cat, h) {
        assert ChainOk(v, g, cat, h);
      }
    }
    SlotStepOwners(v, w, g, cat, d, i, e);
  }

  lemma StillMarked(slots: seq<Entry>, i: nat, e: Entry)
    requires EndMarked(slots) && i < |slots| && e[0] != UNUSED && forall j :: 0 <= j < i ==> slots[j][0] != UNUSED
    ensures EndMarked(slots[i := e])
  {
  }

  lemma SlotStepOwners(v: FatVol, w: FatVol, g: Geometry, cat: Cat, d: nat, i: nat, e: Entry)
    requires CanWrite(v, g, cat, d, i, e)
    requires forall a :: a in cat.dirs ==>
               && Listable(v, g, cat, a) && Listable(w, g, cat, a)
               && SlotsOf(w, g, cat, a) == if a == d then SlotsOf(v, g, cat, a)[i := e] else SlotsOf(v, g, cat, a)
    ensures EntriesOk(w, g, cat) && OneOwner(w, g, cat)
  {
    hide ChainsOk, DirsOk, SlotsOf, EntryOk, Owning;
    forall a: nat, b: nat | Owned(w, g, cat, a, b)
      ensures if a == d && b == i
              then Owning(e) && OwnedFirst(w, g, cat, a, b) == FirstOf(e) && EntryOk(g, cat, SlotsOf(w, g, cat, a)[b])
              else (Owned(v, g, cat, a, b) && OwnedFirst(w, g, cat, a, b) == OwnedFirst(v, g, cat, a, b)
                && EntryOk(g, cat, SlotsOf(w, g, cat, a)[b]))
    {
      assert a in cat.dirs;
    }
  }

  // ---- changes of storage that no directory sees ----

  /** Every directory of cat is one of cat' and lists the same. */
  ghost predicate SameLists(v: FatVol, w: FatVol, g: Geometry, cat: Cat, cat': Cat) {
    forall a :: a in cat.dirs ==>
        a in cat'.dirs && Listable(v, g, cat, a) && Listable(w, g, cat', a)
        && SlotsOf(w, g, cat', a) == SlotsOf(v, g, cat, a)
  }

  lemma ListsStep(v: FatVol, w: FatVol, g: Geometry, cat: Cat, cat': Cat)
    requires Good(v, g, cat) && cat.dirs <= cat'.dirs && |w.data| == |v.data| && w.root == v.root
    requires forall h :: h in cat.dirs && h != 0 ==>
               h in cat'.chains && h in cat.chains && cat'.chains[h] == cat.chains[h]
    requires forall h :: h in cat.dirs && h != 0 ==> h in cat.chains && SameData(v, w, cat.chains[h])
    ensures SameLists(v, w, g, cat, cat')
  {
    hide Chain, SlotsOf, EntriesOk, OneOwner, ChainsOk, DirsOk, Listable;
    forall a | a in cat.dirs
      ensures a in cat'.dirs && Listable(v, g, cat, a) && Listable(w, g, cat', a)
              && SlotsOf(w, g, cat', a) == SlotsOf(v, g, cat, a)
    {
      ListedSame(v, w, g, cat, cat', a);
    }
  }

  lemma ListedSame(v: FatVol, w: FatVol, g: Geometry, cat: Cat, cat': Cat, a: nat)
    requires DirsOk(v, g, cat) && a in cat.dirs && a in cat'.dirs && |w.data| == |v.data| && w.root == v.root
    requires a != 0 ==>
               a in cat'.chains && a in cat.chains && cat'.chains[a] == cat.chains[a] && SameData(v, w, cat.chains[a])
    ensures Listable(v, g, cat, a) && Listable(w, g, cat', a) && SlotsOf(w, g, cat', a) == SlotsOf(v, g, cat, a)
  {
    SameSlots(v, w, g, cat, cat', a);
  }

  /** The owners of cat' are the owners of cat, if the other directories of cat' own nothing. */
  lemma OwnersSame(v: FatVol, w: FatVol, g: Geometry, cat: Cat, cat': Cat, a: nat, b: nat)
    requires SameLists(v, w, g, cat, cat') && Owned(w, g, cat', a, b) && a in cat.dirs
    ensures Owned(v, g, cat, a, b) && SlotsOf(w, g, cat', a)[b] == SlotsOf(v, g, cat, a)[b]
            && OwnedFirst(w, g, cat', a, b) == OwnedFirst(v, g, cat, a, b)
  {
    hide SlotsOf, Owning;
  }

  // ---- a new chain ----

  ghost function WithChain(cat: Cat, s: seq<nat>): Cat
    requires s != []
  {
    cat.(chains := cat.chains[s[0] := s])
  }

  /** Free clusters become a chain nobody owns yet. */
  lemma AddChain(v: FatVol, w: FatVol, g: Geometry, cat: Cat, s: seq<nat>)
    requires Good(v, g, cat) && Taking(v, w, g.max, s) && s != [] && Shaped(w, g)
    ensures s[0] !in cat.chains && s[0] !in cat.dirs && Good(w, g, WithChain(cat, s))
            && SameLists(v, w, g, cat, WithChain(cat, s))
    ensures forall h :: h in cat.chains ==> SameData(v, w, cat.chains[h])
    ensures forall a: nat, b: nat :: Owned(w, g, WithChain(cat, s), a, b) ==>
              OwnedFirst(w, g, WithChain(cat, s), a, b) != s[0]
  {
    hide SlotsOf, Owning, EntryOk, Listable, EndMarked;
    var cat' := WithChain(cat, s);
    forall h | h in cat.chains
        ensures SameData(v, w, cat.chains[h]) && SameLinks(v, w, cat.chains[h]) && Disjoint(cat.chains[h], s) {
      AddKept(v, w, g, cat, s, h);
    }
    FreshHead(v, g, cat, s);
    hide Taking;
    assert forall d :: d in cat.dirs && d != 0 ==> d in cat.chains by { hide ChainsOk; DirsHaveChains(v, g, cat); }
    AddChainsOk(v, w, g, cat, s);
    ListsStep(v, w, g, cat, cat');
    NewDirsOk(v, w, g, cat, cat');
    forall a: nat, b: nat | Owned(w, g, cat', a, b)
      ensures EntryOk(g, cat', SlotsOf(w, g, cat', a)[b]) && OwnedFirst(w, g, cat', a, b) != s[0]
              && Owned(v, g, cat, a, b) && OwnedFirst(w, g, cat', a, b) == OwnedFirst(v, g, cat, a, b)
    {
      OwnedDir(w, g, cat', a, b);
      OwnersSame(v, w, g, cat, cat', a, b);
      AddEntry(g, cat, s, SlotsOf(v, g, cat, a)[b]);
    }
  }

  lemma OwnedDir(v: FatVol, g: Geometry, cat: Cat, a: nat, b: nat)
    requires Owned(v, g, cat, a, b)
    ensures a in cat.dirs
  {
  }

  lemma DirsHaveChains(v: FatVol, g: Geometry, cat: Cat)
    requires DirsOk(v, g, cat)
    ensures forall d :: d in cat.dirs && d != 0 ==> d in cat.chains
  {
    hide SlotsOf, EndMarked, Holds;
    forall d | d in cat.dirs && d != 0 ensures d in cat.chains {
      assert Listable(v, g, cat, d);
    }
  }

  lemma AddKept(v: FatVol, w: FatVol, g: Geometry, cat: Cat, s: seq<nat>, h: nat)
    requires ChainsOk(v, g, cat) && Taking(v, w, g.max, s) && h in cat.chains
    ensures SameData(v, w, cat.chains[h]) && SameLinks(v, w, cat.chains[h]) && Disjoint(cat.chains[h], s)
  {
    hide Chain;
    assert ChainOk(v, g, cat, h);
    forall x | x in cat.chains[h]
        ensures x < TABLE && x < |v.data| && x !in s && w.data[x] == v.data[x] && w.fat[x] == v.fat[x] {
      ChainUsed(v.fat, g.max, cat.chains[h], x);
    }
  }

  lemma FreshHead(v: FatVol, g: Geometry, cat: Cat, s: seq<nat>)
    requires ChainsOk(v, g, cat) && DirsOk(v, g, cat) && TakenFrom(v.fat, g.max, s) && s != []
    ensures s[0] !in cat.chains && s[0] !in cat.dirs && s[0] != 0
  {
    hide SlotsOf, EndMarked, Chain, Holds;
    if s[0] in cat.chains {
      assert ChainOk(v, g, cat, s[0]);
      HeadUsed(v.fat, g.max, cat.chains[s[0]]);
    }
    DirsHaveChains(v, g, cat);
  }

  lemma HeadUsed(f: seq<nat>, max: nat, s: seq<nat>)
    requires Chain(f, max, s)
    ensures s[0] < TABLE && f[s[0]] != FREE
  {
    ChainUsed(f, max, s, s[0]);
  }

  lemma AddChainsOk(v: FatVol, w: FatVol, g: Geometry, cat: Cat, s: seq<nat>)
    requires ChainsOk(v, g, cat) && Taking(v, w, g.max, s) && s != [] && Shaped(w, g) && s[0] !in cat.chains
    requires forall h :: h in cat.chains ==> SameLinks(v, w, cat.chains[h]) && Disjoint(cat.chains[h], s)
    ensures ChainsOk(w, g, WithChain(cat, s))
  {
    hide Chain;
    var cat' := WithChain(cat, s);
    TakingIsChain(v, w, g.max, s);
    forall h | h in cat'.chains ensures ChainOk(w, g, cat', h) {
      if h != s[0] {
        assert ChainOk(v, g, cat, h);
        KeptChain(v, w, g, cat, cat', h);
      }
    }
    forall h, k | h in cat'.chains && k in cat'.chains && h != k ensures Disjoint(cat'.chains[h], cat'.chains[k]) {
      if h != s[0] && k != s[0] {
        assert Disjoint(cat.chains[h], cat.chains[k]);
      } else if h != s[0] {
        assert Disjoint(cat.chains[h], s);
      } else {
        assert Disjoint(cat.chains[k], s);
      }
    }
  }

  lemma NewDirsOk(v: FatVol, w: FatVol, g: Geometry, cat: Cat, cat': Cat)
    requires DirsOk(v, g, cat) && SameLists(v, w, g, cat, cat') && cat'.dirs == cat.dirs
    ensures DirsOk(w, g, cat')
  {
    hide SlotsOf, EndMarked, Listable;
  }

  lemma AddEntry(g: Geometry, cat: Cat, s: seq<nat>, e: Entry)
    requires EntryOk(g, cat, e) && s != [] && s[0] !in cat.chains && s[0] != 0
    ensures EntryOk(g, WithChain(cat, s), e) && FirstOf(e) != s[0]
  {
  }

  // ---- a chain nobody owns becomes a directory ----

  lemma AddDir(v: FatVol, g: Geometry, cat: Cat, h: nat)
    requires Good(v, g, cat) && h in cat.chains && h !in cat.dirs && h != 0
    requires forall a: nat, b: nat :: Owned(v, g, cat, a, b) ==> OwnedFirst(v, g, cat, a, b) != h
    requires Listable(v, g, cat.(dirs := cat.dirs + {h}), h)
             && EndMarked(SlotsOf(v, g, cat.(dirs := cat.dirs + {h}), h))
    requires forall i :: 0 <= i < |SlotsOf(v, g, cat.(dirs := cat.dirs + {h}), h)| ==>
               !Owning(SlotsOf(v, g, cat.(dirs := cat.dirs + {h}), h)[i])
    ensures Good(v, g, cat.(dirs := cat.dirs + {h})) && SameLists(v, v, g, cat, cat.(dirs := cat.dirs + {h}))
  {
    hide SlotsOf, Owning, EntryOk, EndMarked, Chain, Disjoint;
    var cat' := cat.(dirs := cat.dirs + {h});
    assert forall d :: d in cat.dirs && d != 0 ==> d in cat.chains by { hide ChainsOk; DirsHaveChains(v, g, cat); }
    forall x | x in cat.chains ensures SameData(v, v, cat.chains[x]) {
      assert ChainOk(v, g, cat, x);
      DataItself(v, g, cat.chains[x]);
    }
    ListsStep(v, v, g, cat, cat');
    hide Listable;
    assert ChainsOk(v, g, cat') by {
      forall x | x in cat.chains ensures ChainOk(v, g, cat', x) { assert ChainOk(v, g, cat, x); }
    }
    forall a: nat, b: nat | Owned(v, g, cat', a, b)
      ensures EntryOk(g, cat', SlotsOf(v, g, cat', a)[b]) && Owned(v, g, cat, a, b)
              && OwnedFirst(v, g, cat', a, b) == OwnedFirst(v, g, cat, a, b)
    {
      OwnedDir(v, g, cat', a, b);
      assert a != h;
      OwnersSame(v, v, g, cat, cat', a, b);
      AddDirEntry(g, cat, h, SlotsOf(v, g, cat, a)[b]);
    }
  }

  lemma DataItself(v: FatVol, g: Geometry, s: seq<nat>)
    requires Shaped(v, g) && Chain(v.fat, g.max, s)
    ensures SameData(v, v, s)
  {
    forall c | c in s ensures c < |v.data| {
      ChainUsed(v.fat, g.max, s, c);
    }
  }

  lemma AddDirEntry(g: Geometry, cat: Cat, h: nat, e: Entry)
    requires EntryOk(g, cat, e) && FirstOf(e) != h
    ensures EntryOk(g, cat.(dirs := cat.dirs + {h}), e)
  {
  }

  // ---- a chain nobody owns is freed ----

  ghost function WithoutChain(cat: Cat, h: nat): Cat {
    Cat(cat.chains - {h}, cat.dirs - {h})
  }

  ghost predicate CanDrop(v: FatVol, g: Geometry, cat: Cat, h: nat) {
    && Good(v, g, cat) && h in cat.chains && h != 0
    && (forall a: nat, b: nat :: Owned(v, g, cat, a, b) ==> OwnedFirst(v, g, cat, a, b) != h && a != h)
  }

  lemma DropChain(v: FatVol, f: seq<nat>, g: Geometry, cat: Cat, h: nat)
    requires CanDrop(v, g, cat, h) && FreedAs(v.fat, f, cat.chains[h])
    ensures Good(v.(fat := f), g, WithoutChain(cat, h)) && SameLists(v.(fat := f), v, g, WithoutChain(cat, h), cat)
  {
    hide SlotsOf, Owning, EntryOk, Listable, EndMarked, Chain, Disjoint, FreedAs;
    var w, cat' := v.(fat := f), WithoutChain(cat, h);
    DropChainsOk(v, f, g, cat, h);
    forall a | a in cat'.dirs
      ensures a in cat.dirs && Listable(v, g, cat, a) && Listable(w, g, cat', a)
              && SlotsOf(v, g, cat, a) == SlotsOf(w, g, cat', a)
              && EndMarked(SlotsOf(w, g, cat', a))
    {
      DropListed(v, f, g, cat, h, a);
    }
    forall a: nat, b: nat | Owned(w, g, cat', a, b)
      ensures EntryOk(g, cat', SlotsOf(w, g, cat', a)[b]) && Owned(v, g, cat, a, b)
              && OwnedFirst(w, g, cat', a, b) == OwnedFirst(v, g, cat, a, b)
    {
      OwnedDir(w, g, cat', a, b);
      OwnedThere(v, w, g, cat, cat', a, b);
      DropEntry(g, cat, h, SlotsOf(v, g, cat, a)[b]);
    }
  }

  lemma OwnedThere(v: FatVol, w: FatVol, g: Geometry, cat: Cat, cat': Cat, a: nat, b: nat)
    requires Owned(w, g, cat', a, b) && Listable(v, g, cat, a) && b < |SlotsOf(v, g, cat, a)|
             && SlotsOf(v, g, cat, a)[b] == SlotsOf(w, g, cat', a)[b]
    ensures Owned(v, g, cat, a, b) && OwnedFirst(w, g, cat', a, b) == OwnedFirst(v, g, cat, a, b)
  {
    hide SlotsOf, Owning, Listable;
  }

  lemma DropEntry(g: Geometry, cat: Cat, h: nat, e: Entry)
    requires EntryOk(g, cat, e) && FirstOf(e) != h
    ensures EntryOk(g, WithoutChain(cat, h), e)
  {
  }

  lemma DropListed(v: FatVol, f: seq<nat>, g: Geometry, cat: Cat, h: nat, a: nat)
    requires DirsOk(v, g, cat) && a in cat.dirs && a != h
    ensures Listable(v, g, cat, a) && Listable(v.(fat := f), g, WithoutChain(cat, h), a)
    ensures SlotsOf(v, g, cat, a) == SlotsOf(v.(fat := f), g, WithoutChain(cat, h), a)
            && EndMarked(SlotsOf(v, g, cat, a))
  {
    hide EndMarked, Slots;
  }

  lemma DropChainsOk(v: FatVol, f: seq<nat>, g: Geometry, cat: Cat, h: nat)
    requires ChainsOk(v, g, cat) && h in cat.chains && FreedAs(v.fat, f, cat.chains[h])
    ensures ChainsOk(v.(fat := f), g, WithoutChain(cat, h))
  {
    hide Chain;
    var w, cat' := v.(fat := f), WithoutChain(cat, h);
    forall k | k in cat'.chains ensures ChainOk(w, g, cat', k) {
      assert ChainOk(v, g, cat, k) && Disjoint(cat.chains[k], cat.chains[h]);
      forall x | x in cat.chains[k] ensures x < TABLE && f[x] == v.fat[x] {
        ChainUsed(v.fat, g.max, cat.chains[k], x);
      }
      KeptChain(v, w, g, cat, cat', k);
    }
    forall k, l | k in cat'.chains && l in cat'.chains && k != l ensures Disjoint(cat'.chains[k], cat'.chains[l]) {
      assert Disjoint(cat.chains[k], cat.chains[l]);
    }
  }

  // ---- a directory gains a cluster ----

  lemma ExtendDir(v: FatVol, w: FatVol, g: Geometry, cat: Cat, d: nat, n: nat)
    requires Good(v, g, cat) && d in cat.dirs && d != 0 && d in cat.chains && Extended(v, w, g, cat.chains[d], n)
    requires Listable(v, g, cat, d) && Full(SlotsOf(v, g, cat, d)) && |SlotsOf(v, g, cat, d)| < MAX_SLOTS
    ensures var s := cat.chains[d]; var cat' := cat.(chains := cat.chains[d := s + [n]]);
            && Good(w, g, cat') && Listable(w, g, cat', d) && SlotsOf(v, g, cat, d) <= SlotsOf(w, g, cat', d)
            && |SlotsOf(w, g, cat', d)| > |SlotsOf(v, g, cat, d)|
            && (forall h :: h in cat.chains ==> SameData(v, w, cat.chains[h]))
            && (forall a :: a in cat.dirs && a != d ==>
                 Listable(v, g, cat, a) && Listable(w, g, cat', a) && SlotsOf(w, g, cat', a) == SlotsOf(v, g, cat, a))
            && (forall a: nat, b: nat :: Owned(w, g, cat', a, b) ==>
                 Owned(v, g, cat, a, b) && SlotsOf(w, g, cat', a)[b] == SlotsOf(v, g, cat, a)[b])
  {
    hide SlotsOf, Owning, EntryOk, Listable, EndMarked, Chain, Disjoint, Extended, Full;
    var s := cat.chains[d];
    var cat' := cat.(chains := cat.chains[d := s + [n]]);
    ExtendChainsOk(v, w, g, cat, d, n);
    ExtendListed(v, w, g, cat, d, n);
    assert forall x :: x in cat.dirs && x != 0 ==> x in cat.chains by { hide ChainsOk; DirsHaveChains(v, g, cat); }
    forall a | a in cat.dirs && a != d
      ensures Listable(v, g, cat, a) && Listable(w, g, cat', a) && SlotsOf(w, g, cat', a) == SlotsOf(v, g, cat, a)
              && EndMarked(SlotsOf(w, g, cat', a))
    {
      ExtendOther(v, w, g, cat, d, n, a);
    }
    forall a: nat, b: nat | Owned(w, g, cat', a, b)
      ensures EntryOk(g, cat', SlotsOf(w, g, cat', a)[b]) && Owned(v, g, cat, a, b)
              && OwnedFirst(w, g, cat', a, b) == OwnedFirst(v, g, cat, a, b)
              && SlotsOf(w, g, cat', a)[b] == SlotsOf(v, g, cat, a)[b]
    {
      OwnedDir(w, g, cat', a, b);
      assert b < |SlotsOf(v, g, cat, a)| && SlotsOf(v, g, cat, a)[b] == SlotsOf(w, g, cat', a)[b];
      OwnedThere(v, w, g, cat, cat', a, b);
      ExtendEntry(g, cat, d, n, SlotsOf(v, g, cat, a)[b]);
    }
  }

  lemma ExtendEntry(g: Geometry, cat: Cat, d: nat, n: nat, e: Entry)
    requires EntryOk(g, cat, e) && d in cat.chains
    ensures EntryOk(g, cat.(chains := cat.chains[d := cat.chains[d] + [n]]), e)
  {
    Distr(|cat.chains[d]|, 1, g.Size());
  }

  lemma ExtendOther(v: FatVol, w: FatVol, g: Geometry, cat: Cat, d: nat, n: nat, a: nat)
    requires DirsOk(v, g, cat) && d in cat.chains && a in cat.dirs && a != d && w.root == v.root && |w.data| == |v.data|
    requires a in cat.chains ==> SameData(v, w, cat.chains[a])
    ensures var cat' := cat.(chains := cat.chains[d := cat.chains[d] + [n]]);
            && Listable(v, g, cat, a) && Listable(w, g, cat', a) && SlotsOf(w, g, cat', a) == SlotsOf(v, g, cat, a)
            && EndMarked(SlotsOf(w, g, cat', a))
  {
    hide EndMarked;
    SameSlots(v, w, g, cat, cat.(chains := cat.chains[d := cat.chains[d] + [n]]), a);
  }

  lemma ExtendChainsOk(v: FatVol, w: FatVol, g: Geometry, cat: Cat, d: nat, n: nat)
    requires ChainsOk(v, g, cat) && d in cat.chains && Extended(v, w, g, cat.chains[d], n)
    ensures ChainsOk(w, g, cat.(chains := cat.chains[d := cat.chains[d] + [n]]))
    ensures w.root == v.root && |w.data| == |v.data| && forall h :: h in cat.chains ==> SameData(v, w, cat.chains[h])
  {
    hide Chain;
    var s := cat.chains[d];
    var cat' := cat.(chains := cat.chains[d := s + [n]]);
    assert v.fat[n] == FREE;
    ExtendedChain(v, w, g, s, n);
    ExtendedKeeps(v, w, g, s, n);
    hide Extended;
    forall h | h in cat.chains
        ensures SameData(v, w, cat.chains[h]) && n !in cat.chains[h] && (h != d ==> SameLinks(v, w, cat.chains[h])) {
      assert ChainOk(v, g, cat, h);
      assert h != d ==> Disjoint(cat.chains[h], s);
      forall x | x in cat.chains[h] ensures x < TABLE && x < |v.data| && x != n {
        ChainUsed(v.fat, g.max, cat.chains[h], x);
      }
    }
    forall h | h in cat'.chains ensures ChainOk(w, g, cat', h) {
      assert ChainOk(v, g, cat, h);
      if h != d {
        KeptChain(v, w, g, cat, cat', h);
      } else {
        ChainSome(v.fat, g.max, s);
      }
    }
    forall k, l | k in cat'.chains && l in cat'.chains && k != l ensures Disjoint(cat'.chains[k], cat'.chains[l]) {
      assert Disjoint(cat.chains[k], cat.chains[l]);
    }
  }

  lemma ExtendedKeeps(v: FatVol, w: FatVol, g: Geometry, s: seq<nat>, n: nat)
    requires Extended(v, w, g, s, n)
    ensures w.root == v.root && |w.data| == |v.data| && |w.fat| == |v.fat| == TABLE
  {
  }

  lemma ExtendListed(v: FatVol, w: FatVol, g: Geometry, cat: Cat, d: nat, n: nat)
    requires Listable(v, g, cat, d) && d != 0 && Extended(v, w, g, cat.chains[d], n) && g.Ok()
    requires Full(SlotsOf(v, g, cat, d)) && |SlotsOf(v, g, cat, d)| < MAX_SLOTS
    ensures var cat' := cat.(chains := cat.chains[d := cat.chains[d] + [n]]);
            && Listable(w, g, cat', d) && EndMarked(SlotsOf(w, g, cat', d))
            && SlotsOf(v, g, cat, d) <= SlotsOf(w, g, cat', d)
            && |SlotsOf(w, g, cat', d)| > |SlotsOf(v, g, cat, d)|
            && forall b: nat :: |SlotsOf(v, g, cat, d)| <= b < |SlotsOf(w, g, cat', d)| ==>
                 !Owning(SlotsOf(w, g, cat', d)[b])
  {
    hide Chain, Slots, Extended, DotName;
    var s := cat.chains[d];
    ExtendedSlots(v, w, g, s, n);
    RoomForOne(g, |s|);
    var a, b := Slots(v.data, g.per, s), Slots(w.data, g.per, s + [n]);
    assert |s + [n]| * g.per <= MAX_SLOTS;
    assert forall i: nat :: i < |a| ==> b[..|a|][i] == b[i];
    assert EndMarked(b);
  }

  lemma RoomForOne(g: Geometry, count: nat)
    requires g.Ok() && count * g.per < MAX_SLOTS
    ensures (count + 1) * g.per <= MAX_SLOTS
  {
    DivMod(65536, g.per);
    var q := 65536 / g.per;
    if count >= q {
      Distr(count - q, q, g.per);
      MulNat(count - q, g.per);
    } else {
      Distr(count + 1, q - (count + 1), g.per);
      MulNat(q - (count + 1), g.per);
    }
  }

  // ---- an initial state ----

  /** A formatted volume, its root directory unused, is good; no chain exists yet. */
  lemma FormattedGood(v: FatVol, g: Geometry)
    requires Shaped(v, g) && forall i :: 0 <= i < |v.root| ==> v.root[i] == Zeros(32)
    ensures Good(v, g, Cat(map[], {0}))
  {
    hide DotName;
    var cat := Cat(map[], {0});
    assert SlotsOf(v, g, cat, 0) == v.root;
  }
}
