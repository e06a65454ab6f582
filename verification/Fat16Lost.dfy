/**
 * An input at which fat16_rename loses a file (fs/fat16.c:805-831): the root holds the
 * files "a" and "b", each with one cluster, and "b" is renamed to "a/c".
 */
module Fat16Lost {
  import opened Bytes
  import opened Fat16Table
  import opened Fat16Volume
  import opened Fat16Names
  import opened Fat16Dir
  import opened Fat16Tree
  import opened Fat16
  import opened Fat16Change
  import opened Fat16Stray
  import opened Fat16Move
  import opened Fat16Seek
  import opened Fat16Trace
  import opened Fat16Paths
  import opened Wrappers

  const A: seq<byte> := [97]
  const B: seq<byte> := [98]
  const C: seq<byte> := [99]

  /** Clusters of 512 bytes, two of them; two root slots. */
  const GEO := Geometry(4, 16, 2)

  const CAT := Cat(map[2 := [2], 3 := [3]], {0})

  // ---- names ----

  /** A one-letter name. */
  lemma Letter(x: byte)
    requires 97 <= x <= 122
    ensures Fits83([x]) && Usable(To83([x])) && To83([x])[0] == x - 32
  {
    var s := [x];
    assert s[..|s| - 1] == [] && s[0] == x;
    assert LastDot(s) == 1;
    assert Base(s) == s && Ext(s) == [];
    UsableNames(s);
  }

  lemma Letters()
    ensures Fits83(A) && Fits83(B) && Fits83(C) && Usable(To83(A)) && Usable(To83(B)) && Usable(To83(C))
    ensures To83(A) != To83(B)
  {
    hide Fits83, To83, Usable;
    Letter(97);
    Letter(98);
    Letter(99);
  }

  // ---- the volume ----

  function FileEntry(name: seq<byte>, first: nat, size: nat): Entry
    requires |name| == 11 && first < TABLE && size < 0x1_0000
  {
    Pointing(name + Zeros(21), ARCHIVE, first, size)
  }

  lemma FileEntryReads(name: seq<byte>, first: nat, size: nat)
    requires Usable(name) && first < TABLE && size < 0x1_0000
    ensures |name| == 11
    ensures var e := FileEntry(name, first, size);
            Owning(e) && !IsDir(e) && FirstOf(e) == first && SizeOf(e) == size && NameOf(e) == name && e[0] != UNUSED
  {
    hide DotName, Pointing, FirstOf, SizeOf;
    PointingReads(name + Zeros(21), ARCHIVE, first, size);
    assert (name + Zeros(21))[..11] == name;
  }

  /** Both files hold one cluster of zeros. */
  function Two(e: Entry, f: Entry): FatVol {
    FatVol(seq(TABLE, i => if i == 2 || i == 3 then LAST else FREE), seq(4, i => Zeros(512)), [e, f])
  }

  ghost predicate Files(e: Entry, f: Entry) {
    && Owning(e) && !IsDir(e) && FirstOf(e) == 2 && SizeOf(e) == 512 && e[0] != UNUSED
    && Owning(f) && !IsDir(f) && FirstOf(f) == 3 && SizeOf(f) == 512 && f[0] != UNUSED
    && NameOf(e) != NameOf(f)
  }

  /** The root is the only directory; its slots are the two entries. */
  lemma TwoOwned(e: Entry, f: Entry)
    requires Files(e, f)
    ensures var v := Two(e, f);
            && Listable(v, GEO, CAT, 0) && SlotsOf(v, GEO, CAT, 0) == [e, f]
            && forall d: nat, i: nat :: Owned(v, GEO, CAT, d, i) <==> d == 0 && i < 2
  {
    hide Owning, FirstOf, SizeOf, IsDir;
    var v := Two(e, f);
    assert SlotsOf(v, GEO, CAT, 0) == v.root;
    forall d: nat, i: nat ensures Owned(v, GEO, CAT, d, i) <==> d == 0 && i < 2 {
      if d == 0 && i < 2 {
        assert v.root[i] == if i == 0 then e else f;
      }
    }
  }

  lemma TwoChains(e: Entry, f: Entry)
    ensures ChainsOk(Two(e, f), GEO, CAT)
  {
    var v := Two(e, f);
    assert Shaped(v, GEO);
    forall h | h in CAT.chains ensures ChainOk(v, GEO, CAT, h) {
      assert CAT.chains[h] == [h] && v.fat[h] == LAST;
      assert Follows([h], 0, v.fat[h]);
    }
  }

  lemma TwoTidy(e: Entry, f: Entry)
    requires Files(e, f)
    ensures Tidy(Two(e, f), GEO, CAT)
  {
    hide Owned, SlotsOf, Listable, Owning, ChainsOk, Two;
    TwoOwned(e, f);
    TwoChains(e, f);
    var v := Two(e, f);
    assert EndMarked([e, f]);
    assert EntryOk(GEO, CAT, e) && EntryOk(GEO, CAT, f);
    forall d: nat, i: nat | Owned(v, GEO, CAT, d, i)
        ensures d == 0 && SlotsOf(v, GEO, CAT, d)[i] == if i == 0 then e else f {
    }
  }

  // ---- the rename ----

  /** Behind "a" the scan finds no name, and a free slot at once. */
  lemma ZeroAdmits(e: Entry, f: Entry, name: seq<byte>)
    requires Files(e, f)
    ensures Admits(Two(e, f), GEO, CAT, 2, name)
  {
    hide Slots, FreshSlots, Two;
    TwoChains(e, f);
    var v := Two(e, f);
    DataIs(e, f);
    ZeroSlots(v.data, GEO, 2);
    var slots := Slots(v.data, GEO.per, [2]);
    assert |slots| == 16 && slots[0] == Zeros(32);
    assert slots[0][0] == UNUSED;
    assert IsFree(slots[0]);
    assert !Scanned(slots, name) by {
      UnusedMisses(slots[0], name);
    }
  }

  lemma DataIs(e: Entry, f: Entry)
    ensures var v := Two(e, f);
            Shaped(v, GEO) && |v.data| == 4 && v.data[2] == Zeros(512) && Holds(v.data, GEO.per, [2])
  {
  }

  /** Where the two names lead. */
  lemma RootNames(v: FatVol, e: Entry, f: Entry)
    requires Tidy(v, GEO, CAT) && v == Two(e, f) && Files(e, f) && Fits83(A) && Fits83(B) && NamesOk([A])
             && NamesOk([B])
    requires NameOf(e) == To83(A) && NameOf(f) == To83(B)
    ensures Locate(v, GEO, CAT, [A]) == At(0, 0) && Locate(v, GEO, CAT, [B]) == At(0, 1)
  {
    hide Tidy, Two, Fits83, To83, Usable, Owned, SlotsOf, Listable, Seek, Walk, Owning;
    TwoOwned(e, f);
    AtRoot(v, A, 0);
    AtRoot(v, B, 1);
  }

  lemma AtRoot(v: FatVol, name: seq<byte>, i: nat)
    requires Tidy(v, GEO, CAT) && Fits83(name) && NamesOk([name]) && Owned(v, GEO, CAT, 0, i)
             && OwnedName(v, GEO, CAT, 0, i) == To83(name)
    ensures Locate(v, GEO, CAT, [name]) == At(0, i)
  {
    hide Good, OneName, Fits83, To83, Usable, Owned, OwnedName, Seek, Walk;
    var t := [name];
    assert Spelled(t) && Stored(t) == [To83(name)];
    StoredOk(t);
    assert Stored(t)[..0] == [];
    WalkNone(v, GEO, CAT, 0);
    SeekEnds(v, GEO, CAT, Stored(t), 0, i);
  }

  /** The file is owned by no slot afterwards, wherever the driver put its entry. */
  lemma GoneEverywhere(v: FatVol, e: Entry, f: Entry, w: FatVol, cat': Cat, j: nat)
    requires v == Two(e, f) && Files(e, f) && Outcome(v, w, GEO, CAT, cat', 0, 1, 2, j, To83(C)) && Fits83(C)
    ensures forall a: nat, b: nat :: Owned(w, GEO, cat', a, b) ==> OwnedFirst(w, GEO, cat', a, b) != 3
  {
    hide Two, Owned, SlotsOf, Listable, Good, SlotKept, Owning, FirstOf, To83, Fits83;
    TwoOwned(e, f);
    forall a: nat, b: nat | Owned(w, GEO, cat', a, b) ensures OwnedFirst(w, GEO, cat', a, b) != 3 {
      assert Owned(v, GEO, CAT, a, b);
      assert LostOther(v, w, GEO, CAT, cat', 2, a, b);
    }
  }

  /**
   * A tidy volume on which renaming "/b" to "/a/c" is accepted and loses the file: whatever
   * fat16_rename leaves, no slot owns its chain, and both paths lead nowhere.
   */
  lemma RenameLosesFile() returns (v: FatVol)
    ensures NamesOk([B]) && NamesOk([A, C]) && Fits83(C)
    ensures Tidy(v, GEO, CAT) && Owned(v, GEO, CAT, 0, 1) && OwnedFirst(v, GEO, CAT, 0, 1) == 3
    ensures Locate(v, GEO, CAT, [B]) == At(0, 1) && CanRename(v, GEO, CAT, [B], [A, C])
            && TargetOf(v, GEO, CAT, [A, C]) == Some(2)
    ensures forall w, cat', j: nat :: Outcome(v, w, GEO, CAT, cat', 0, 1, 2, j, To83(C)) ==>
              && Tidy(w, GEO, cat') && Locate(w, GEO, cat', [B]) == Lost && Locate(w, GEO, cat', [A, C]) == Lost
              && forall a: nat, b: nat :: Owned(w, GEO, cat', a, b) ==> OwnedFirst(w, GEO, cat', a, b) != 3
  {
    hide Tidy, Two, Fits83, To83, Usable, Owned, OwnedFirst, Locate, Admits, Outcome, WayKept;
    Letters();
    var t: TextPath := [A, C];
    assert t[..|t| - 1] == [A];
    FileEntryReads(To83(A), 2, 512);
    FileEntryReads(To83(B), 3, 512);
    var e, f := FileEntry(To83(A), 2, 512), FileEntry(To83(B), 3, 512);
    v := Two(e, f);
    TwoTidy(e, f);
    TwoOwned(e, f);
    RootNames(v, e, f);
    FirstsAre(v, e, f);
    ZeroAdmits(e, f, To83(C));
    forall w, cat', j: nat | Outcome(v, w, GEO, CAT, cat', 0, 1, 2, j, To83(C))
      ensures && Tidy(w, GEO, cat') && Locate(w, GEO, cat', [B]) == Lost && Locate(w, GEO, cat', [A, C]) == Lost
              && forall a: nat, b: nat :: Owned(w, GEO, cat', a, b) ==> OwnedFirst(w, GEO, cat', a, b) != 3
    {
      RenamedPaths(v, w, GEO, CAT, cat', [B], [A, C], 0, 1, 2, j);
      BehindFile(v);
      GoneEverywhere(v, e, f, w, cat', j);
    }
  }

  lemma FirstsAre(v: FatVol, e: Entry, f: Entry)
    requires v == Two(e, f) && Files(e, f)
    ensures Owned(v, GEO, CAT, 0, 0) && OwnedFirst(v, GEO, CAT, 0, 0) == 2
    ensures Owned(v, GEO, CAT, 0, 1) && OwnedFirst(v, GEO, CAT, 0, 1) == 3
  {
    hide Two, Owned, SlotsOf, Listable, Owning, FirstOf;
    TwoOwned(e, f);
  }

  /** "/a" is no directory, so no path goes on behind it. */
  lemma BehindFile(v: FatVol)
    requires Tidy(v, GEO, CAT) && NamesOk([A, C]) && TargetOf(v, GEO, CAT, [A, C]) == Some(2)
    ensures !WayKept(v, GEO, CAT, [A, C], 0, 1)
  {
    hide Tidy, TargetOf, ParentOf, Passes;
    TargetIs(v, GEO, CAT, [A, C]);
    assert 2 !in CAT.dirs;
  }
}
