/**
 * What each change to a FAT16 volume does to its names: one slot per name is kept,
 * and where every path leads afterwards follows from where it led before.
 */
module Fat16Trace {
  import opened Bytes
  import opened Fat16Table
  import opened Fat16Volume
  import opened Fat16Names
  import opened Fat16Dir
  import opened Fat16Tree
  import opened Fat16
  import opened Fat16Write
  import opened Fat16Change
  import opened Fat16Rename
  import opened Fat16Stray
  import opened Fat16Seek
  import opened Wrappers

  /** A good volume in which no directory has a name twice. */
  ghost predicate Tidy(v: FatVol, g: Geometry, cat: Cat) {
    Good(v, g, cat) && OneName(v, g, cat) && 0 in cat.dirs
  }

  lemma TidyIs(v: FatVol, g: Geometry, cat: Cat)
    requires Good(v, g, cat) && OneName(v, g, cat)
    ensures Tidy(v, g, cat)
  {
    hide Good, OneName;
    RootDir(v, g, cat);
  }

  // ---- a file rewritten, or nothing changed ----

  lemma ReplacedTidy(v: FatVol, w: FatVol, g: Geometry, cat: Cat, cat': Cat, d: nat, i: nat, bytes: seq<byte>)
    requires Tidy(v, g, cat) && FileReplaced(v, w, g, cat, cat', d, i, bytes)
    ensures Tidy(w, g, cat') && Unseen(v, w, g, cat, cat', d, i)
  {
    hide Good, SlotsOf, Owned, OneName, EntryOk, Contents, OthersKept, NoneNew, Stays;
    OthersStay(v, w, g, cat, cat', d, i);
    StaysBack(v, w, g, cat, cat', d, i, d, i);
    OwnName(v, g, cat, d, i);
    NamesStep(v, w, g, cat, cat', d, i);
    TidyIs(w, g, cat');
  }

  /** A slot's own name is free but for itself. */
  lemma OwnName(v: FatVol, g: Geometry, cat: Cat, d: nat, i: nat)
    requires OneName(v, g, cat) && Owned(v, g, cat, d, i)
    ensures NameFree(v, g, cat, d, i, OwnedName(v, g, cat, d, i))
  {
    hide Owned, SlotsOf;
  }

  /** Rewriting a file leads every path to the slot it led to. */
  lemma ReplacedPaths(v: FatVol, w: FatVol, g: Geometry, cat: Cat, cat': Cat, d: nat, i: nat, bytes: seq<byte>, p: Path)
    requires Tidy(v, g, cat) && FileReplaced(v, w, g, cat, cat', d, i, bytes) && p != [] && PathOk(p)
    ensures Tidy(w, g, cat') && Seek(w, g, cat', 0, p) == Seek(v, g, cat, 0, p)
  {
    hide Good, OneName, FileReplaced, Unseen, Seek, Usable;
    ReplacedTidy(v, w, g, cat, cat', d, i, bytes);
    SeekSame(v, w, g, cat, cat', d, i, p);
  }

  lemma KeptTidy(v: FatVol, w: FatVol, g: Geometry, cat: Cat, cat': Cat) returns (y: nat)
    requires Tidy(v, g, cat) && AllKept(v, w, g, cat, cat')
    ensures Tidy(w, g, cat') && Unseen(v, w, g, cat, cat', 0, y)
  {
    hide Good, Owned, SlotsOf, OneName, SlotKept, NoneAdded, Stays, Listable;
    RootDir(w, g, cat');
    GoodDir(v, g, cat, 0);
    GoodDir(w, g, cat', 0);
    y := |SlotsOf(v, g, cat, 0)| + |SlotsOf(w, g, cat', 0)|;
    Beyond(v, g, cat, 0, y);
    Beyond(w, g, cat', 0, y);
    KeptStays(v, w, g, cat, cat', 0, y);
    NamesStep(v, w, g, cat, cat', 0, y);
  }

  lemma Beyond(v: FatVol, g: Geometry, cat: Cat, d: nat, i: nat)
    requires Listable(v, g, cat, d) && i >= |SlotsOf(v, g, cat, d)|
    ensures !Owned(v, g, cat, d, i)
  {
    hide Listable, SlotsOf;
  }

  lemma KeptStays(v: FatVol, w: FatVol, g: Geometry, cat: Cat, cat': Cat, x: nat, y: nat)
    requires AllKept(v, w, g, cat, cat')
    ensures Stays(v, w, g, cat, cat', x, y) && Stays(w, v, g, cat', cat, x, y)
  {
    hide Good, Owned, SlotsOf, Contents;
    forall a: nat, b: nat | Owned(v, g, cat, a, b) && (a != x || b != y) ensures SameEntry(v, w, g, cat, cat', a, b) {
      assert SlotKept(v, w, g, cat, cat', a, b);
    }
    forall a: nat, b: nat | Owned(w, g, cat', a, b) && (a != x || b != y) ensures SameEntry(w, v, g, cat', cat, a, b) {
      assert Owned(v, g, cat, a, b);
      assert SlotKept(v, w, g, cat, cat', a, b);
    }
  }

  /** Where nothing visible changed, no path notices. */
  lemma KeptPaths(v: FatVol, w: FatVol, g: Geometry, cat: Cat, cat': Cat, p: Path)
    requires Tidy(v, g, cat) && AllKept(v, w, g, cat, cat') && p != [] && PathOk(p)
    ensures Tidy(w, g, cat') && Seek(w, g, cat', 0, p) == Seek(v, g, cat, 0, p)
  {
    hide Good, OneName, AllKept, Unseen, Seek, Usable;
    var y := KeptTidy(v, w, g, cat, cat');
    SeekSame(v, w, g, cat, cat', 0, y, p);
  }

  lemma NothingAll(v: FatVol, w: FatVol, g: Geometry, cat: Cat)
    requires NothingChanged(v, w, g, cat)
    ensures AllKept(v, w, g, cat, cat)
  {
    hide Good, Owned, SlotKept, NoneAdded;
  }

  // ---- a new name ----

  lemma FilledTidy(v: FatVol, w: FatVol, g: Geometry, cat: Cat, cat': Cat, d: nat, i: nat, e: Entry)
    requires Tidy(v, g, cat) && SlotFilled(v, w, g, cat, cat', d, i, e) && !HasName(v, g, cat, d, NameOf(e))
    ensures Tidy(w, g, cat') && Stays(v, w, g, cat, cat', d, i)
  {
    hide Good, SlotsOf, Owned, OneName, OthersKept, NoneNew, Stays, HasName, NameFree;
    OthersStay(v, w, g, cat, cat', d, i);
    StaysBack(v, w, g, cat, cat', d, i, d, i);
    HasOwned(v, g, cat, d, i, NameOf(e));
    NamesStep(v, w, g, cat, cat', d, i);
    TidyIs(w, g, cat');
  }

  /** The path of the new name leads to it. */
  lemma FilledPath(v: FatVol, w: FatVol, g: Geometry, cat: Cat, cat': Cat, d: nat, i: nat, e: Entry, p: Path)
    requires Tidy(v, g, cat) && SlotFilled(v, w, g, cat, cat', d, i, e) && !HasName(v, g, cat, d, NameOf(e))
    requires p != [] && PathOk(p) && PathOk(p[..|p| - 1]) && Walk(v, g, cat, 0, p[..|p| - 1]) == Some(d)
             && NameOf(e) == p[|p| - 1]
    ensures Tidy(w, g, cat') && Seek(w, g, cat', 0, p) == At(d, i)
  {
    hide Good, SlotsOf, Owned, OneName, OthersKept, NoneNew, Stays, HasName, Walk, Seek, Passes, Usable;
    FilledTidy(v, w, g, cat, cat', d, i, e);
    NotThrough(v, g, cat, p[..|p| - 1], d, i);
    WalkKept(v, w, g, cat, cat', d, i, 0, p[..|p| - 1]);
    SeekEnds(w, g, cat', p, d, i);
  }

  lemma NotThrough(v: FatVol, g: Geometry, cat: Cat, p: Path, x: nat, y: nat)
    requires Good(v, g, cat) && 0 in cat.dirs && PathOk(p) && !Owned(v, g, cat, x, y)
    ensures !Passes(v, g, cat, 0, p, x, y)
  {
    hide Good, Owned, Passes, Usable;
    if Passes(v, g, cat, 0, p, x, y) {
      PassesOwned(v, g, cat, 0, p, x, y);
      assert false;
    }
  }

  /** Every path that led somewhere still does. */
  lemma FilledOthers(v: FatVol, w: FatVol, g: Geometry, cat: Cat, cat': Cat, d: nat, i: nat, e: Entry, p: Path)
    requires Tidy(v, g, cat) && SlotFilled(v, w, g, cat, cat', d, i, e) && !HasName(v, g, cat, d, NameOf(e))
    requires p != [] && PathOk(p) && Seek(v, g, cat, 0, p).At?
    ensures Tidy(w, g, cat') && Seek(w, g, cat', 0, p) == Seek(v, g, cat, 0, p)
  {
    hide Good, SlotsOf, Owned, OneName, OthersKept, NoneNew, Stays, HasName, Walk, Seek, Passes, Usable;
    FilledTidy(v, w, g, cat, cat', d, i, e);
    SeekMeans(v, g, cat, p);
    NotThrough(v, g, cat, p[..|p| - 1], d, i);
    SeekStays(v, w, g, cat, cat', d, i, p);
  }

  // ---- a name removed ----

  /** The name is gone from directory d. */
  ghost predicate NameGone(w: FatVol, g: Geometry, cat: Cat, d: nat, name: seq<byte>) {
    forall b: nat :: Owned(w, g, cat, d, b) ==> OwnedName(w, g, cat, d, b) != name
  }

  /** The slot that carried a name no longer owns, and no other slot took the name. */
  lemma GoneFrom(v: FatVol, w: FatVol, g: Geometry, cat: Cat, cat': Cat, d: nat, i: nat, x: nat, y: nat)
    requires OneName(v, g, cat) && Owned(v, g, cat, d, i) && !Owned(w, g, cat', d, i) && Stays(w, v, g, cat', cat, x, y)
    requires Owned(w, g, cat', x, y) && x == d ==> OwnedName(w, g, cat', x, y) != OwnedName(v, g, cat, d, i)
    ensures NameGone(w, g, cat', d, OwnedName(v, g, cat, d, i))
  {
    hide Owned, SlotsOf;
    forall b: nat | Owned(w, g, cat', d, b) ensures OwnedName(w, g, cat', d, b) != OwnedName(v, g, cat, d, i) {
      if d != x || b != y {
        assert SameEntry(w, v, g, cat', cat, d, b);
      }
    }
  }

  /** A walk that goes through the removed slot leads nowhere. */
  lemma {:induction false} WalkBroken(v: FatVol, w: FatVol, g: Geometry, cat: Cat, cat': Cat, x: nat, y: nat, d: nat,
      p: Path)
    requires Good(v, g, cat) && Good(w, g, cat') && OneName(w, g, cat') && Stays(v, w, g, cat, cat', x, y)
    requires Owned(v, g, cat, x, y) && NameGone(w, g, cat', x, OwnedName(v, g, cat, x, y))
    requires d in cat.dirs && d in cat'.dirs && PathOk(p) && Passes(v, g, cat, d, p, x, y)
    ensures Walk(w, g, cat', d, p) == None
    decreases |p|
  {
    hide Good, SlotsOf, Usable, Owned, OneName, Walk, Stays, NameGone;
    var i, h := FirstStep(v, g, cat, d, p, x, y);
    hide Passes;
    if d == x && i == y {
      StepGone(w, g, cat', d, p);
    } else {
      StayAt(v, w, g, cat, cat', x, y, d, i);
      StepAt(w, g, cat', d, p, i);
      WalkBroken(v, w, g, cat, cat', x, y, h, p[1..]);
    }
  }

  lemma StepGone(v: FatVol, g: Geometry, cat: Cat, d: nat, p: Path)
    requires Good(v, g, cat) && d in cat.dirs && p != [] && PathOk(p) && NameGone(v, g, cat, d, p[0])
    ensures Walk(v, g, cat, d, p) == None
  {
    hide Good, SlotsOf, Owned, Usable;
    GoodDir(v, g, cat, d);
    IndexLost(v, g, cat, d, p[0]);
  }

  /** A path whose last name is gone, or whose way is broken, leads nowhere. */
  lemma GonePath(v: FatVol, w: FatVol, g: Geometry, cat: Cat, cat': Cat, d: nat, i: nat, p: Path)
    requires Tidy(v, g, cat) && Tidy(w, g, cat') && p != [] && PathOk(p) && Seek(v, g, cat, 0, p) == At(d, i)
    requires Stays(v, w, g, cat, cat', d, i)
    requires Owned(v, g, cat, d, i) && NameGone(w, g, cat', d, OwnedName(v, g, cat, d, i))
    ensures Seek(w, g, cat', 0, p) == Lost
  {
    hide Good, SlotsOf, Owned, OneName, Stays, Walk, Seek, Passes, Usable, Leaf, NameGone;
    SeekMeans(v, g, cat, p);
    SeekWalk(w, g, cat', 0, p);
    if Passes(v, g, cat, 0, p[..|p| - 1], d, i) {
      WalkBroken(v, w, g, cat, cat', d, i, 0, p[..|p| - 1]);
    } else {
      WalkKept(v, w, g, cat, cat', d, i, 0, p[..|p| - 1]);
      GoneLeaf(w, g, cat', d, p[|p| - 1]);
    }
  }

  lemma GoneLeaf(w: FatVol, g: Geometry, cat: Cat, d: nat, name: seq<byte>)
    requires Good(w, g, cat) && d in cat.dirs && Usable(name) && NameGone(w, g, cat, d, name)
    ensures Leaf(w, g, cat, d, name) == Lost
  {
    hide Good, Owned, Leaf, Usable;
    LeafLost(w, g, cat, d, name);
  }

  lemma RemovedTidy(v: FatVol, w: FatVol, g: Geometry, cat: Cat, cat': Cat, d: nat, i: nat)
    requires Tidy(v, g, cat) && SlotRemoved(v, w, g, cat, cat', d, i)
    ensures Tidy(w, g, cat') && Stays(v, w, g, cat, cat', d, i) && Stays(w, v, g, cat', cat, d, i)
            && !Owned(w, g, cat', d, i)
  {
    hide Good, SlotsOf, Owned, OneName, OthersKept, NoneNew, Stays, Listable, AfterSwap, Released;
    OthersStay(v, w, g, cat, cat', d, i);
    FreeNotOwned(w, g, cat', d, i);
    StaysBack(v, w, g, cat, cat', d, i, d, i);
    NamesStep(v, w, g, cat, cat', d, i);
    TidyIs(w, g, cat');
  }

  /** The path of a removed slot leads nowhere. */
  lemma RemovedPath(v: FatVol, w: FatVol, g: Geometry, cat: Cat, cat': Cat, d: nat, i: nat, p: Path)
    requires Tidy(v, g, cat) && SlotRemoved(v, w, g, cat, cat', d, i) && p != [] && PathOk(p)
             && Seek(v, g, cat, 0, p) == At(d, i)
    ensures Tidy(w, g, cat') && Seek(w, g, cat', 0, p) == Lost
  {
    hide Good, SlotsOf, Owned, OneName, OthersKept, NoneNew, Stays, Seek, Usable, AfterSwap, Released, NameGone,
         Listable;
    RemovedTidy(v, w, g, cat, cat', d, i);
    GoneFrom(v, w, g, cat, cat', d, i, d, i);
    GonePath(v, w, g, cat, cat', d, i, p);
  }

  // ---- a name moved ----

  lemma MovedTidy(v: FatVol, w: FatVol, g: Geometry, cat: Cat, cat': Cat, d: nat, i: nat, q: nat, j: nat,
      name: seq<byte>)
    requires Tidy(v, g, cat) && SlotMoved(v, w, g, cat, cat', d, i, q, j, name) && !HasName(v, g, cat, q, name)
    ensures Tidy(w, g, cat') && Stays(v, w, g, cat, cat', d, i) && Stays(w, v, g, cat', cat, q, j)
            && !Owned(w, g, cat', d, i)
    ensures Owned(w, g, cat', q, j) && OwnedName(w, g, cat', q, j) == name
    ensures NameGone(w, g, cat', d, OwnedName(v, g, cat, d, i))
  {
    hide Good, SlotsOf, Owned, OneName, OthersKept, NoneNew, Stays, HasName, NameFree, Listable, EntryOk, Contents,
         Renamed, NameGone;
    OthersStay(v, w, g, cat, cat', d, i);
    FreeNotOwned(w, g, cat', d, i);
    StaysBack(v, w, g, cat, cat', d, i, q, j);
    HasOwned(v, g, cat, q, j, name);
    OwnedIn(v, g, cat, d, i);
    RenamedReads(SlotsOf(v, g, cat, d)[i], name);
    NamesStep(v, w, g, cat, cat', q, j);
    TidyIs(w, g, cat');
    NewToDir(v, g, cat, d, i, q, name);
    GoneFrom(v, w, g, cat, cat', d, i, q, j);
  }

  lemma NewToDir(v: FatVol, g: Geometry, cat: Cat, d: nat, i: nat, q: nat, name: seq<byte>)
    requires Owned(v, g, cat, d, i) && !HasName(v, g, cat, q, name)
    ensures q == d ==> OwnedName(v, g, cat, d, i) != name
  {
    hide SlotsOf, Listable, DotName;
    if q == d {
      assert !Hit(SlotsOf(v, g, cat, d)[i], name);
    }
  }

  /** The new path leads to the moved entry exactly if its way does not go through the entry itself. */
  lemma MovedPath(v: FatVol, w: FatVol, g: Geometry, cat: Cat, cat': Cat, d: nat, i: nat, q: nat, j: nat,
      name: seq<byte>, p: Path)
    requires Tidy(v, g, cat) && SlotMoved(v, w, g, cat, cat', d, i, q, j, name) && !HasName(v, g, cat, q, name)
    requires p != [] && PathOk(p) && PathOk(p[..|p| - 1]) && Walk(v, g, cat, 0, p[..|p| - 1]) == Some(q)
             && name == p[|p| - 1]
    ensures Tidy(w, g, cat')
    ensures Seek(w, g, cat', 0, p) == if Passes(v, g, cat, 0, p[..|p| - 1], d, i) then Lost else At(q, j)
  {
    hide Good, SlotsOf, Owned, OneName, Stays, HasName, SlotMoved, Walk, Seek, Passes, Usable, Leaf, NameGone;
    MovedTidy(v, w, g, cat, cat', d, i, q, j, name);
    MovedOwned(v, w, g, cat, cat', d, i, q, j, name);
    if Passes(v, g, cat, 0, p[..|p| - 1], d, i) {
      WalkBroken(v, w, g, cat, cat', d, i, 0, p[..|p| - 1]);
      SeekWalk(w, g, cat', 0, p);
    } else {
      WalkKept(v, w, g, cat, cat', d, i, 0, p[..|p| - 1]);
      SeekEnds(w, g, cat', p, q, j);
    }
  }

  lemma MovedOwned(v: FatVol, w: FatVol, g: Geometry, cat: Cat, cat': Cat, d: nat, i: nat, q: nat, j: nat,
      name: seq<byte>)
    requires SlotMoved(v, w, g, cat, cat', d, i, q, j, name)
    ensures Owned(v, g, cat, d, i)
  {
    hide Good, SlotsOf, Owned, OthersKept, NoneNew, Listable, EntryOk, Contents, Renamed;
  }

  /** The old path leads nowhere. */
  lemma MovedAway(v: FatVol, w: FatVol, g: Geometry, cat: Cat, cat': Cat, d: nat, i: nat, q: nat, j: nat,
      name: seq<byte>, p: Path)
    requires Tidy(v, g, cat) && SlotMoved(v, w, g, cat, cat', d, i, q, j, name) && !HasName(v, g, cat, q, name)
    requires p != [] && PathOk(p) && Seek(v, g, cat, 0, p) == At(d, i)
    ensures Tidy(w, g, cat') && Seek(w, g, cat', 0, p) == Lost
  {
    hide Good, SlotsOf, Owned, OneName, Stays, HasName, SlotMoved, Seek, Usable, NameGone;
    MovedTidy(v, w, g, cat, cat', d, i, q, j, name);
    MovedOwned(v, w, g, cat, cat', d, i, q, j, name);
    GonePath(v, w, g, cat, cat', d, i, p);
  }

  // ---- a name lost behind a file ----

  lemma LostTidy(v: FatVol, w: FatVol, g: Geometry, cat: Cat, cat': Cat, d: nat, i: nat, h: nat)
    requires Tidy(v, g, cat) && SlotLost(v, w, g, cat, cat', d, i, h)
    ensures Tidy(w, g, cat') && Stays(v, w, g, cat, cat', d, i) && Owned(v, g, cat, d, i)
            && NameGone(w, g, cat', d, OwnedName(v, g, cat, d, i))
  {
    hide Good, SlotsOf, Owned, OneName, SlotKept, NameGone;
    forall a: nat, b: nat | Owned(v, g, cat, a, b) && (a != d || b != i) ensures SameEntry(v, w, g, cat, cat', a, b) {
      assert LostOther(v, w, g, cat, cat', h, a, b);
    }
    assert NoneNew(v, w, g, cat, cat', d, i);
    hide Stays;
    StaysBack(v, w, g, cat, cat', d, i, d, i);
    NamesStep(v, w, g, cat, cat', d, i);
    TidyIs(w, g, cat');
    GoneFrom(v, w, g, cat, cat', d, i, d, i);
  }
}
