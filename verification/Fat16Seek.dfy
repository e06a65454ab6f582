/**
 * Where FAT16 paths lead (fs/fat16.c:331-414) as the volume changes: with one slot
 * per name in every directory, a path keeps its slot through every change that
 * leaves the slots on its way alone.
 */
module Fat16Seek {
  import opened Bytes
  import opened Fat16Table
  import opened Fat16Volume
  import opened Fat16Names
  import opened Fat16Dir
  import opened Fat16Tree
  import opened Fat16
  import opened Fat16Change
  import opened Wrappers

  // ---- one slot per name ----

  ghost function OwnedName(v: FatVol, g: Geometry, cat: Cat, d: nat, i: nat): seq<byte>
    requires Owned(v, g, cat, d, i)
  {
    NameOf(SlotsOf(v, g, cat, d)[i])
  }

  /** No directory has two owning slots of one name. */
  ghost predicate OneName(v: FatVol, g: Geometry, cat: Cat) {
    forall d: nat, i: nat, j: nat :: Owned(v, g, cat, d, i) && Owned(v, g, cat, d, j) && i != j ==>
                                       OwnedName(v, g, cat, d, i) != OwnedName(v, g, cat, d, j)
  }

  /** No owning slot of d but (d, i) has the name. */
  ghost predicate NameFree(v: FatVol, g: Geometry, cat: Cat, d: nat, i: nat, name: seq<byte>) {
    forall b: nat :: Owned(v, g, cat, d, b) && b != i ==> OwnedName(v, g, cat, d, b) != name
  }

  /** Every owning slot but (x, y) is still there with its entry. */
  ghost predicate Stays(v: FatVol, w: FatVol, g: Geometry, cat: Cat, cat': Cat, x: nat, y: nat) {
    forall a: nat, b: nat :: Owned(v, g, cat, a, b) && (a != x || b != y) ==> SameEntry(v, w, g, cat, cat', a, b)
  }

  ghost predicate SameEntry(v: FatVol, w: FatVol, g: Geometry, cat: Cat, cat': Cat, a: nat, b: nat)
    requires Owned(v, g, cat, a, b)
  {
    Owned(w, g, cat', a, b) && SlotsOf(w, g, cat', a)[b] == SlotsOf(v, g, cat, a)[b]
  }

  lemma OthersStay(v: FatVol, w: FatVol, g: Geometry, cat: Cat, cat': Cat, x: nat, y: nat)
    requires Good(v, g, cat) && Good(w, g, cat') && OthersKept(v, w, g, cat, cat', x, y)
    ensures Stays(v, w, g, cat, cat', x, y)
  {
    hide Good, Owned, SlotsOf, Contents;
    forall a: nat, b: nat | Owned(v, g, cat, a, b) && (a != x || b != y) ensures SameEntry(v, w, g, cat, cat', a, b) {
      assert SlotKept(v, w, g, cat, cat', a, b);
    }
  }

  /** Nothing but (x, y) is new, and what was there is as it was: the same seen from w. */
  lemma StaysBack(v: FatVol, w: FatVol, g: Geometry, cat: Cat, cat': Cat, d: nat, i: nat, x: nat, y: nat)
    requires Stays(v, w, g, cat, cat', d, i) && NoneNew(v, w, g, cat, cat', x, y)
    requires (d == x && i == y) || !Owned(w, g, cat', d, i)
    ensures Stays(w, v, g, cat', cat, x, y)
  {
    hide Owned, SlotsOf;
    forall a: nat, b: nat | Owned(w, g, cat', a, b) && (a != x || b != y) ensures SameEntry(w, v, g, cat', cat, a, b) {
      assert Owned(v, g, cat, a, b);
      assert SameEntry(v, w, g, cat, cat', a, b);
    }
  }

  /** A changed slot may take any name its directory does not have. */
  lemma NamesStep(v: FatVol, w: FatVol, g: Geometry, cat: Cat, cat': Cat, x: nat, y: nat)
    requires OneName(v, g, cat) && Stays(w, v, g, cat', cat, x, y)
    requires Owned(w, g, cat', x, y) ==> NameFree(v, g, cat, x, y, OwnedName(w, g, cat', x, y))
    ensures OneName(w, g, cat')
  {
    hide Owned, SlotsOf;
    forall d: nat, i: nat, j: nat | Owned(w, g, cat', d, i) && Owned(w, g, cat', d, j) && i != j
      ensures OwnedName(w, g, cat', d, i) != OwnedName(w, g, cat', d, j)
    {
      if d != x || i != y { assert SameEntry(w, v, g, cat', cat, d, i); }
      if d != x || j != y { assert SameEntry(w, v, g, cat', cat, d, j); }
    }
  }

  // ---- names and slots ----

  lemma HitOwned(v: FatVol, g: Geometry, cat: Cat, d: nat, j: nat, name: seq<byte>)
    requires Listable(v, g, cat, d) && j < |SlotsOf(v, g, cat, d)| && Usable(name)
    ensures Hit(SlotsOf(v, g, cat, d)[j], name) ==> Owned(v, g, cat, d, j) && OwnedName(v, g, cat, d, j) == name
  {
    hide SlotsOf, DotName, Listable;
  }

  lemma OwnedHit(v: FatVol, g: Geometry, cat: Cat, d: nat, i: nat)
    requires Owned(v, g, cat, d, i)
    ensures Listable(v, g, cat, d) && i < |SlotsOf(v, g, cat, d)| && Usable(OwnedName(v, g, cat, d, i))
    ensures Hit(SlotsOf(v, g, cat, d)[i], OwnedName(v, g, cat, d, i))
  {
    hide SlotsOf, DotName, Listable;
  }

  lemma Distinguished(v: FatVol, g: Geometry, cat: Cat, d: nat, i: nat, j: nat)
    requires OneName(v, g, cat) && Owned(v, g, cat, d, i) && i != j
    ensures Owned(v, g, cat, d, j) ==> OwnedName(v, g, cat, d, i) != OwnedName(v, g, cat, d, j)
  {
    hide Owned, OwnedName;
  }

  /** Under one name, a search stops at the slot that owns it. */
  lemma IndexOwned(v: FatVol, g: Geometry, cat: Cat, d: nat, i: nat)
    requires Good(v, g, cat) && OneName(v, g, cat) && Owned(v, g, cat, d, i)
    ensures d in cat.dirs && Listable(v, g, cat, d) && Usable(OwnedName(v, g, cat, d, i))
    ensures i < |SlotsOf(v, g, cat, d)| && IndexOf(SlotsOf(v, g, cat, d), OwnedName(v, g, cat, d, i)) == i
  {
    hide Good, SlotsOf, IndexOf, Listable, Owned, OneName, Hit, Usable;
    OwnedDir(v, g, cat, d, i);
    OwnedHit(v, g, cat, d, i);
    var slots, name := SlotsOf(v, g, cat, d), OwnedName(v, g, cat, d, i);
    forall j | 0 <= j < i ensures !Hit(slots[j], name) {
      Distinguished(v, g, cat, d, i, j);
      HitOwned(v, g, cat, d, j, name);
    }
    IndexIs(slots, name, i);
  }

  lemma IndexLost(v: FatVol, g: Geometry, cat: Cat, d: nat, name: seq<byte>)
    requires Listable(v, g, cat, d) && Usable(name) && forall b: nat :: Owned(v, g, cat, d, b) ==>
               OwnedName(v, g, cat, d, b) != name
    ensures IndexOf(SlotsOf(v, g, cat, d), name) == |SlotsOf(v, g, cat, d)|
  {
    hide SlotsOf, IndexOf, Listable, Owned, Hit, Usable;
    var slots := SlotsOf(v, g, cat, d);
    forall j | 0 <= j < |slots| ensures !Hit(slots[j], name) {
      HitOwned(v, g, cat, d, j, name);
    }
    IndexIs(slots, name, |slots|);
  }

  /** A found slot owns the name. */
  lemma IndexFound(v: FatVol, g: Geometry, cat: Cat, d: nat, name: seq<byte>)
    requires Good(v, g, cat) && d in cat.dirs && Usable(name)
    ensures Listable(v, g, cat, d)
    ensures var i := IndexOf(SlotsOf(v, g, cat, d), name);
            i < |SlotsOf(v, g, cat, d)| ==> Owned(v, g, cat, d, i) && OwnedName(v, g, cat, d, i) == name
  {
    hide Good, SlotsOf, Usable, Owned, IndexOf, Listable, Visible;
    GoodDir(v, g, cat, d);
    var i := IndexOf(SlotsOf(v, g, cat, d), name);
    if i < |SlotsOf(v, g, cat, d)| {
      FoundOwns(v, g, cat, d, i, name);
    }
  }

  lemma HasOwned(v: FatVol, g: Geometry, cat: Cat, d: nat, i: nat, name: seq<byte>)
    requires !HasName(v, g, cat, d, name)
    ensures NameFree(v, g, cat, d, i, name)
  {
    hide SlotsOf, DotName, Listable;
    forall b: nat | Owned(v, g, cat, d, b) && b != i ensures OwnedName(v, g, cat, d, b) != name {
      assert !Hit(SlotsOf(v, g, cat, d)[b], name);
    }
  }

  // ---- walking to a directory ----

  /** The directory a path leads to from directory d. */
  ghost function Walk(v: FatVol, g: Geometry, cat: Cat, d: nat, p: Path): (r: Option<nat>)
    requires Good(v, g, cat) && d in cat.dirs && PathOk(p)
    ensures r.Some? ==> r.value in cat.dirs
    decreases |p|
  {
    if p == [] then Some(d) else
      GoodDir(v, g, cat, d);
      var slots := SlotsOf(v, g, cat, d);
      var i := IndexOf(slots, p[0]);
      if i == |slots| || !IsDir(slots[i]) then None
      else FoundOwns(v, g, cat, d, i, p[0]); Walk(v, g, cat, FirstOf(slots[i]), p[1..])
  }

  /** The slot for the last name of a path in directory h. */
  ghost function Leaf(v: FatVol, g: Geometry, cat: Cat, h: nat, name: seq<byte>): Place
    requires Good(v, g, cat) && h in cat.dirs && Usable(name)
  {
    GoodDir(v, g, cat, h);
    var i := IndexOf(SlotsOf(v, g, cat, h), name);
    if i == |SlotsOf(v, g, cat, h)| then Lost else At(h, i)
  }

  /** A path leads to the slot of its last name in the directory the rest leads to. */
  lemma {:induction false} SeekWalk(v: FatVol, g: Geometry, cat: Cat, d: nat, p: Path)
    requires Good(v, g, cat) && d in cat.dirs && p != [] && PathOk(p)
    ensures PathOk(p[..|p| - 1]) && Usable(p[|p| - 1])
    ensures var h := Walk(v, g, cat, d, p[..|p| - 1]);
            Seek(v, g, cat, d, p) == if h.None? then Lost else Leaf(v, g, cat, h.value, p[|p| - 1])
    decreases |p|
  {
    hide Good, SlotsOf, Usable, Listable, EndMarked, Walkable;
    GoodDir(v, g, cat, d);
    if |p| > 1 {
      var pp, slots := p[..|p| - 1], SlotsOf(v, g, cat, d);
      var i := IndexOf(slots, p[0]);
      assert pp[0] == p[0] && pp[1..] == p[1..][..|p| - 2];
      if i < |slots| && IsDir(slots[i]) {
        FoundOwns(v, g, cat, d, i, p[0]);
        SeekWalk(v, g, cat, FirstOf(slots[i]), p[1..]);
        assert p[1..][|p| - 2] == p[|p| - 1];
      }
    } else {
      assert p[..0] == [];
    }
  }

  /** The walk goes through the directory of slot (x, y). */
  ghost predicate Passes(v: FatVol, g: Geometry, cat: Cat, d: nat, p: Path, x: nat, y: nat)
    requires Good(v, g, cat) && d in cat.dirs && PathOk(p)
    decreases |p|
  {
    p != [] &&
    (GoodDir(v, g, cat, d);
     var slots := SlotsOf(v, g, cat, d);
     var i := IndexOf(slots, p[0]);
     && i < |slots| && IsDir(slots[i])
     && ((d == x && i == y) || (FoundOwns(v, g, cat, d, i, p[0]); Passes(v, g, cat, FirstOf(slots[i]), p[1..], x, y))))
  }

  /** The first step of a walk, in terms of owning slots. */
  lemma FirstStep(v: FatVol, g: Geometry, cat: Cat, d: nat, p: Path, x: nat, y: nat) returns (i: nat, h: nat)
    requires Good(v, g, cat) && d in cat.dirs && p != [] && PathOk(p)
    ensures Usable(p[0]) && PathOk(p[1..])
    ensures Walk(v, g, cat, d, p).Some? || Passes(v, g, cat, d, p, x, y) ==>
              && Owned(v, g, cat, d, i) && OwnedName(v, g, cat, d, i) == p[0] && IsDir(SlotsOf(v, g, cat, d)[i])
              && h == OwnedFirst(v, g, cat, d, i) && h in cat.dirs
              && Walk(v, g, cat, d, p) == Walk(v, g, cat, h, p[1..])
              && (Passes(v, g, cat, d, p, x, y) <==> (d == x && i == y) || Passes(v, g, cat, h, p[1..], x, y))
  {
    hide Good, SlotsOf, Usable, Owned, Listable, EndMarked, Walkable;
    GoodDir(v, g, cat, d);
    IndexFound(v, g, cat, d, p[0]);
    i := IndexOf(SlotsOf(v, g, cat, d), p[0]);
    h := 0;
    if i < |SlotsOf(v, g, cat, d)| {
      h := FirstOf(SlotsOf(v, g, cat, d)[i]);
      FoundOwns(v, g, cat, d, i, p[0]);
    }
  }

  /** The same step in a volume where the slot is known. */
  lemma StepAt(v: FatVol, g: Geometry, cat: Cat, d: nat, p: Path, i: nat)
    requires Good(v, g, cat) && OneName(v, g, cat) && p != [] && PathOk(p)
    requires Owned(v, g, cat, d, i) && OwnedName(v, g, cat, d, i) == p[0] && IsDir(SlotsOf(v, g, cat, d)[i])
    ensures d in cat.dirs && OwnedFirst(v, g, cat, d, i) in cat.dirs
    ensures Walk(v, g, cat, d, p) == Walk(v, g, cat, OwnedFirst(v, g, cat, d, i), p[1..])
  {
    hide Good, SlotsOf, Usable, Owned, Listable, EndMarked, Walkable, OneName;
    IndexOwned(v, g, cat, d, i);
    OwnedDirHead(v, g, cat, d, i);
  }

  /** A walk that does not go through a changed slot still leads where it led. */
  lemma {:induction false} WalkKept(v: FatVol, w: FatVol, g: Geometry, cat: Cat, cat': Cat, x: nat, y: nat, d: nat,
      p: Path)
    requires Good(v, g, cat) && Good(w, g, cat') && OneName(w, g, cat') && Stays(v, w, g, cat, cat', x, y)
    requires d in cat.dirs && d in cat'.dirs && PathOk(p) && Walk(v, g, cat, d, p).Some?
             && !Passes(v, g, cat, d, p, x, y)
    ensures Walk(w, g, cat', d, p) == Walk(v, g, cat, d, p)
    decreases |p|
  {
    hide Good, SlotsOf, Usable, Owned, OneName, Walk, Passes;
    if p == [] {
      WalkNone(v, g, cat, d);
      WalkNone(w, g, cat', d);
    } else {
      var i, h := FirstStep(v, g, cat, d, p, x, y);
      NotPassed(v, g, cat, d, p, x, y, i, h);
      assert SameEntry(v, w, g, cat, cat', d, i);
      StepAt(w, g, cat', d, p, i);
      WalkKept(v, w, g, cat, cat', x, y, h, p[1..]);
    }
  }

  lemma WalkNone(v: FatVol, g: Geometry, cat: Cat, d: nat)
    requires Good(v, g, cat) && d in cat.dirs
    ensures Walk(v, g, cat, d, []) == Some(d)
  {
    hide Good;
  }

  lemma NotPassed(v: FatVol, g: Geometry, cat: Cat, d: nat, p: Path, x: nat, y: nat, i: nat, h: nat)
    requires Good(v, g, cat) && d in cat.dirs && p != [] && PathOk(p) && h in cat.dirs && PathOk(p[1..])
    requires Passes(v, g, cat, d, p, x, y) <==> (d == x && i == y) || Passes(v, g, cat, h, p[1..], x, y)
    requires !Passes(v, g, cat, d, p, x, y)
    ensures (d != x || i != y) && !Passes(v, g, cat, h, p[1..], x, y)
  {
    hide Good, Usable, Passes;
  }

  /** Walks go through owned directory slots only. */
  lemma {:induction false} PassesOwned(v: FatVol, g: Geometry, cat: Cat, d: nat, p: Path, x: nat, y: nat)
    requires Good(v, g, cat) && d in cat.dirs && PathOk(p) && Passes(v, g, cat, d, p, x, y)
    ensures Owned(v, g, cat, x, y) && IsDir(SlotsOf(v, g, cat, x)[y])
    decreases |p|
  {
    hide Good, SlotsOf, Usable, Owned, Walk;
    var i, h := FirstStep(v, g, cat, d, p, x, y);
    if d != x || i != y {
      PassesOwned(v, g, cat, h, p[1..], x, y);
    }
  }

  // ---- where paths lead afterwards ----

  /** A path whose slot and way are untouched leads where it led. */
  lemma SeekStays(v: FatVol, w: FatVol, g: Geometry, cat: Cat, cat': Cat, x: nat, y: nat, p: Path)
    requires Good(v, g, cat) && Good(w, g, cat') && OneName(w, g, cat') && Stays(v, w, g, cat, cat', x, y)
    requires p != [] && PathOk(p) && 0 in cat.dirs && 0 in cat'.dirs
    requires var at := Seek(v, g, cat, 0, p); at.At? && (at.dir != x || at.index != y)
    requires PathOk(p[..|p| - 1]) && !Passes(v, g, cat, 0, p[..|p| - 1], x, y)
    ensures Seek(w, g, cat', 0, p) == Seek(v, g, cat, 0, p)
  {
    hide Good, SlotsOf, Usable, Owned, OneName, Walk, Passes, Seek, Leaf;
    SeekWalk(v, g, cat, 0, p);
    SeekWalk(w, g, cat', 0, p);
    WalkKept(v, w, g, cat, cat', x, y, 0, p[..|p| - 1]);
    var h := Walk(v, g, cat, 0, p[..|p| - 1]).value;
    LeafOwned(v, g, cat, h, p[|p| - 1]);
    var i := Leaf(v, g, cat, h, p[|p| - 1]).index;
    assert SameEntry(v, w, g, cat, cat', h, i);
    LeafAt(w, g, cat', h, i);
  }

  lemma LeafOwned(v: FatVol, g: Geometry, cat: Cat, h: nat, name: seq<byte>)
    requires Good(v, g, cat) && h in cat.dirs && Usable(name) && Leaf(v, g, cat, h, name).At?
    ensures var at := Leaf(v, g, cat, h, name);
            at.dir == h && Owned(v, g, cat, h, at.index) && OwnedName(v, g, cat, h, at.index) == name
  {
    hide Good, SlotsOf, Usable, Owned;
    IndexFound(v, g, cat, h, name);
  }

  lemma LeafAt(v: FatVol, g: Geometry, cat: Cat, h: nat, i: nat)
    requires Good(v, g, cat) && OneName(v, g, cat) && Owned(v, g, cat, h, i)
    ensures h in cat.dirs && Usable(OwnedName(v, g, cat, h, i))
            && Leaf(v, g, cat, h, OwnedName(v, g, cat, h, i)) == At(h, i)
  {
    hide Good, SlotsOf, Usable, Owned, OneName;
    IndexOwned(v, g, cat, h, i);
  }

  lemma LeafLost(v: FatVol, g: Geometry, cat: Cat, h: nat, name: seq<byte>)
    requires Good(v, g, cat) && h in cat.dirs && Usable(name) && forall b: nat :: Owned(v, g, cat, h, b) ==>
               OwnedName(v, g, cat, h, b) != name
    ensures Leaf(v, g, cat, h, name) == Lost
  {
    hide Good, SlotsOf, Usable, Owned;
    GoodDir(v, g, cat, h);
    IndexLost(v, g, cat, h, name);
  }

  /** The slot at the end of a path, from the directory before it. */
  lemma SeekEnds(v: FatVol, g: Geometry, cat: Cat, p: Path, d: nat, i: nat)
    requires Good(v, g, cat) && OneName(v, g, cat) && p != [] && PathOk(p) && 0 in cat.dirs && PathOk(p[..|p| - 1])
    requires Walk(v, g, cat, 0, p[..|p| - 1]) == Some(d) && Owned(v, g, cat, d, i)
             && OwnedName(v, g, cat, d, i) == p[|p| - 1]
    ensures Seek(v, g, cat, 0, p) == At(d, i)
  {
    hide Good, SlotsOf, Usable, Owned, OneName, Walk, Seek, Leaf;
    SeekWalk(v, g, cat, 0, p);
    LeafAt(v, g, cat, d, i);
  }

  /** Where a found path ends. */
  lemma SeekMeans(v: FatVol, g: Geometry, cat: Cat, p: Path)
    requires Good(v, g, cat) && p != [] && PathOk(p) && 0 in cat.dirs && Seek(v, g, cat, 0, p).At?
    ensures PathOk(p[..|p| - 1])
    ensures var at := Seek(v, g, cat, 0, p);
            && Walk(v, g, cat, 0, p[..|p| - 1]) == Some(at.dir) && Owned(v, g, cat, at.dir, at.index)
            && OwnedName(v, g, cat, at.dir, at.index) == p[|p| - 1]
  {
    hide Good, SlotsOf, Usable, Owned, Walk, Seek, Leaf;
    SeekWalk(v, g, cat, 0, p);
    LeafOwned(v, g, cat, Walk(v, g, cat, 0, p[..|p| - 1]).value, p[|p| - 1]);
  }

  /** Slot (x, y), owned on both sides or neither, is no directory and keeps its name: no path notices. */
  ghost predicate Unseen(v: FatVol, w: FatVol, g: Geometry, cat: Cat, cat': Cat, x: nat, y: nat) {
    && Stays(v, w, g, cat, cat', x, y) && Stays(w, v, g, cat', cat, x, y)
    && (Owned(v, g, cat, x, y) <==> Owned(w, g, cat', x, y))
    && (Owned(v, g, cat, x, y) && Owned(w, g, cat', x, y) ==>
          OwnedName(w, g, cat', x, y) == OwnedName(v, g, cat, x, y) && !IsDir(SlotsOf(v, g, cat, x)[y])
            && !IsDir(SlotsOf(w, g, cat', x)[y]))
  }

  lemma UnseenBack(v: FatVol, w: FatVol, g: Geometry, cat: Cat, cat': Cat, x: nat, y: nat)
    requires Unseen(v, w, g, cat, cat', x, y)
    ensures Unseen(w, v, g, cat', cat, x, y)
  {
    hide Owned, SlotsOf, Stays;
  }

  /** What is found before is found after, at the same slot. */
  lemma SeekForth(v: FatVol, w: FatVol, g: Geometry, cat: Cat, cat': Cat, x: nat, y: nat, p: Path)
    requires Good(v, g, cat) && Good(w, g, cat') && OneName(w, g, cat') && Unseen(v, w, g, cat, cat', x, y)
    requires p != [] && PathOk(p) && 0 in cat.dirs && 0 in cat'.dirs && Seek(v, g, cat, 0, p).At?
    ensures Seek(w, g, cat', 0, p) == Seek(v, g, cat, 0, p)
  {
    hide Good, SlotsOf, Usable, Owned, OneName, Walk, Passes, Seek, Leaf, Stays;
    SeekMeans(v, g, cat, p);
    var at := Seek(v, g, cat, 0, p);
    if Passes(v, g, cat, 0, p[..|p| - 1], x, y) {
      PassesOwned(v, g, cat, 0, p[..|p| - 1], x, y);
      assert false;
    }
    WalkKept(v, w, g, cat, cat', x, y, 0, p[..|p| - 1]);
    if at.dir != x || at.index != y {
      StayAt(v, w, g, cat, cat', x, y, at.dir, at.index);
    }
    SeekEnds(w, g, cat', p, at.dir, at.index);
  }

  lemma StayAt(v: FatVol, w: FatVol, g: Geometry, cat: Cat, cat': Cat, x: nat, y: nat, a: nat, b: nat)
    requires Stays(v, w, g, cat, cat', x, y) && Owned(v, g, cat, a, b) && (a != x || b != y)
    ensures Owned(w, g, cat', a, b) && OwnedName(w, g, cat', a, b) == OwnedName(v, g, cat, a, b)
    ensures SlotsOf(w, g, cat', a)[b] == SlotsOf(v, g, cat, a)[b]
  {
    hide Owned, SlotsOf;
    assert SameEntry(v, w, g, cat, cat', a, b);
  }

  /** Every path leads where it led. */
  lemma SeekSame(v: FatVol, w: FatVol, g: Geometry, cat: Cat, cat': Cat, x: nat, y: nat, p: Path)
    requires Good(v, g, cat) && Good(w, g, cat') && OneName(v, g, cat) && OneName(w, g, cat')
             && Unseen(v, w, g, cat, cat', x, y)
    requires p != [] && PathOk(p) && 0 in cat.dirs && 0 in cat'.dirs
    ensures Seek(w, g, cat', 0, p) == Seek(v, g, cat, 0, p)
  {
    hide Good, Usable, OneName, Seek, Unseen;
    if Seek(v, g, cat, 0, p).At? {
      SeekForth(v, w, g, cat, cat', x, y, p);
    } else if Seek(w, g, cat', 0, p).At? {
      UnseenBack(v, w, g, cat, cat', x, y);
      SeekForth(w, v, g, cat', cat, x, y, p);
    }
  }
}
