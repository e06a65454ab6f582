/**
 * FAT16 by path (fs/fat16.c:355-414, 679-831): create, write, unlink and rename of
 * paths as the caller spells them.  A path is the list of its components; each is
 * turned into a stored name by name_to_83, and one that cannot be leads nowhere.
 */
module Fat16Paths {
  import opened Arith
  import opened Bytes
  import opened Fat16Table
  import opened Fat16Volume
  import opened Fat16Names
  import opened Fat16Dir
  import opened Fat16Tree
  import opened Fat16
  import opened Fat16Write
  import opened Fat16Change
  import opened Fat16Rename
  import opened Fat16Stray
  import opened Fat16Move
  import opened Fat16Seek
  import opened Fat16Trace
  import opened Wrappers

  // ---- spelling ----

  type TextPath = seq<seq<byte>>

  /** Every component is an 8.3 name. */
  predicate Spelled(t: TextPath) {
    forall k :: 0 <= k < |t| ==> Fits83(t[k])
  }

  /** No component is stored under a name the driver takes for a dot entry or a deleted slot. */
  predicate NamesOk(t: TextPath) {
    forall k :: 0 <= k < |t| && Fits83(t[k]) ==> Usable(To83(t[k]))
  }

  function Stored(t: TextPath): (p: Path)
    requires Spelled(t)
    ensures |p| == |t|
  {
    seq(|t|, k requires 0 <= k < |t| => To83(t[k]))
  }

  lemma StoredOk(t: TextPath)
    requires Spelled(t) && NamesOk(t)
    ensures PathOk(Stored(t))
  {
    hide Fits83, To83, Usable;
  }

  lemma SpelledInit(t: TextPath)
    requires t != [] && NamesOk(t)
    ensures NamesOk(t[..|t| - 1]) && (Spelled(t) <==> Spelled(t[..|t| - 1]) && Fits83(t[|t| - 1]))
    ensures Spelled(t) ==>
              Stored(t)[..|t| - 1] == Stored(t[..|t| - 1]) && Stored(t)[|t| - 1] == To83(t[|t| - 1])
              && Usable(To83(t[|t| - 1]))
  {
    hide Fits83, To83, Usable;
    var s := t[..|t| - 1];
    if Spelled(s) && Fits83(t[|t| - 1]) {
      forall k | 0 <= k < |t| ensures Fits83(t[k]) {
        if k < |s| {
          assert t[k] == s[k];
        }
      }
    }
    if Spelled(t) {
      assert Stored(t)[..|t| - 1] == Stored(s);
    }
  }

  /** name_to_83 on every component (fs/fat16.c:374-378) */
  method Convert(t: TextPath) returns (ok: bool, p: Path)
    requires NamesOk(t)
    ensures ok <==> Spelled(t)
    ensures ok ==> p == Stored(t) && PathOk(p)
  {
    hide Fits83, To83, Usable;
    p := [];
    var k := 0;
    while k < |t|
      invariant 0 <= k <= |t| && |p| == k && (forall m :: 0 <= m < k ==> Fits83(t[m]))
      invariant forall m :: 0 <= m < k ==> p[m] == To83(t[m])
    {
      var name := NameTo83(t[k]);
      if name.None? {
        return false, [];
      }
      p := p + [name.value];
      k := k + 1;
    }
    assert p == Stored(t);
    StoredOk(t);
    return true, p;
  }

  // ---- where a spelled path leads ----

  ghost function Locate(v: FatVol, g: Geometry, cat: Cat, t: TextPath): (r: Place)
    requires Tidy(v, g, cat) && t != [] && NamesOk(t)
  {
    if Spelled(t) then StoredOk(t); Seek(v, g, cat, 0, Stored(t)) else Lost
  }

  /** The directory the path's last name is looked up in. */
  ghost function ParentOf(v: FatVol, g: Geometry, cat: Cat, t: TextPath): (r: Option<nat>)
    requires Tidy(v, g, cat) && t != [] && NamesOk(t)
    ensures r.Some? ==> r.value in cat.dirs
  {
    SpelledInit(t);
    if Spelled(t[..|t| - 1]) then StoredOk(t[..|t| - 1]); Walk(v, g, cat, 0, Stored(t[..|t| - 1])) else None
  }

  /** A located slot owns its file. */
  lemma LocateOwned(v: FatVol, g: Geometry, cat: Cat, t: TextPath)
    requires Tidy(v, g, cat) && t != [] && NamesOk(t) && Locate(v, g, cat, t).At?
    ensures var at := Locate(v, g, cat, t);
            Owned(v, g, cat, at.dir, at.index) && EntryOk(g, cat, SlotsOf(v, g, cat, at.dir)[at.index])
  {
    hide Good, SlotsOf, Owned, OneName, Seek, Usable, Fits83, EntryOk;
    StoredOk(t);
    SeekMeans(v, g, cat, Stored(t));
    var at := Locate(v, g, cat, t);
    OwnedEntry(v, g, cat, at.dir, at.index);
  }

  lemma OwnedEntry(v: FatVol, g: Geometry, cat: Cat, d: nat, i: nat)
    requires Good(v, g, cat) && Owned(v, g, cat, d, i)
    ensures EntryOk(g, cat, SlotsOf(v, g, cat, d)[i])
  {
    hide ChainsOk, DirsOk, OneOwner, SlotsOf, Owned, EntryOk;
  }

  /** A path leads to a directory exactly if its slot is one. */
  lemma {:induction false} WalkSeek(v: FatVol, g: Geometry, cat: Cat, d: nat, p: Path)
    requires Good(v, g, cat) && d in cat.dirs && p != [] && PathOk(p)
    ensures var at := Seek(v, g, cat, d, p);
            && (at.At? ==> Owned(v, g, cat, at.dir, at.index))
            && Walk(v, g, cat, d, p) == if at.At? && IsDir(SlotsOf(v, g, cat, at.dir)[at.index])
               then Some(OwnedFirst(v, g, cat, at.dir, at.index)) else None
    decreases |p|
  {
    hide Good, SlotsOf, Usable, Owned, Listable, EndMarked, Walkable;
    GoodDir(v, g, cat, d);
    IndexFound(v, g, cat, d, p[0]);
    var slots := SlotsOf(v, g, cat, d);
    var i := IndexOf(slots, p[0]);
    if i < |slots| && IsDir(slots[i]) {
      FoundOwns(v, g, cat, d, i, p[0]);
      if |p| == 1 {
        assert p[1..] == [];
      } else {
        WalkSeek(v, g, cat, FirstOf(slots[i]), p[1..]);
      }
    }
  }

  // ---- create ----

  /** path_parent with the directory check of fat16_create (fs/fat16.c:395-414, 746-749) */
  method ParentHead(vol: FatVolume, t: TextPath, ghost cat: Cat) returns (ok: bool, d: nat)
    requires vol.Valid() && Tidy(vol.View(), vol.geo, cat) && t != [] && NamesOk(t)
    ensures ParentOf(vol.View(), vol.geo, cat, t) == if ok then Some(d) else None
  {
    hide Good, Owned, Seek, SlotsOf, Usable, OneName, Walk, Fits83;
    SpelledInit(t);
    ghost var v, g := vol.View(), vol.geo;
    if |t| == 1 {
      assert Stored(t[..0]) == [];
      WalkNone(v, g, cat, 0);
      return true, 0;
    }
    var p;
    ok, p := Convert(t[..|t| - 1]);
    if !ok {
      return false, 0;
    }
    WalkSeek(v, g, cat, 0, p);
    var found, a, b, e := PathLookup(vol, p, cat);
    if !found || !IsDir(e) {
      return false, 0;
    }
    return true, FirstOf(e);
  }

  /** fat16_create accepts the path. */
  ghost predicate CanCreate(v: FatVol, g: Geometry, cat: Cat, t: TextPath, directory: bool)
    requires Tidy(v, g, cat) && t != [] && NamesOk(t)
  {
    var d := ParentOf(v, g, cat, t);
    d.Some? && Fits83(t[|t| - 1]) && Creatable(v, g, cat, d.value, To83(t[|t| - 1]), directory)
  }

  /**
   * The path leads to the new entry e in slot (d, i): an empty file, or a directory of "." and
   * ".."; all else is kept.
   */
  ghost predicate Created(v: FatVol, w: FatVol, g: Geometry, cat: Cat, cat': Cat, t: TextPath, directory: bool, d: nat,
      i: nat, e: Entry) {
    && Tidy(v, g, cat) && Tidy(w, g, cat') && t != [] && NamesOk(t)
    && Locate(v, g, cat, t) == Lost && ParentOf(v, g, cat, t) == Some(d) && Locate(w, g, cat', t) == At(d, i)
    && SlotFilled(v, w, g, cat, cat', d, i, e) && Fits83(t[|t| - 1]) && NameOf(e) == To83(t[|t| - 1])
    && IsDir(e) == directory && SizeOf(e) == 0
    && if directory then NewDir(w, g, cat', d, e) else FirstOf(e) == 0
  }

  lemma CreatedIs(v: FatVol, w: FatVol, g: Geometry, cat: Cat, cat': Cat, t: TextPath, directory: bool, d: nat, i: nat,
      e: Entry)
    requires Tidy(v, g, cat) && t != [] && NamesOk(t) && ParentOf(v, g, cat, t) == Some(d) && Fits83(t[|t| - 1])
    requires SlotFilled(v, w, g, cat, cat', d, i, e) && !HasName(v, g, cat, d, To83(t[|t| - 1]))
             && NameOf(e) == To83(t[|t| - 1])
    requires IsDir(e) == directory && SizeOf(e) == 0 && if directory then NewDir(w, g, cat', d, e) else FirstOf(e) == 0
    ensures Created(v, w, g, cat, cat', t, directory, d, i, e)
  {
    hide Good, SlotFilled, Seek, Usable, OneName, Walk, Fits83, To83, HasName, NewDir, FirstOf, SizeOf, IsDir, NameOf,
         Leaf;
    SpelledInit(t);
    StoredOk(t);
    var p := Stored(t);
    FilledPath(v, w, g, cat, cat', d, i, e, p);
    SeekWalk(v, g, cat, 0, p);
    NameLost(v, g, cat, d, To83(t[|t| - 1]));
  }

  lemma NameLost(v: FatVol, g: Geometry, cat: Cat, d: nat, name: seq<byte>)
    requires Good(v, g, cat) && d in cat.dirs && Usable(name)
    ensures Leaf(v, g, cat, d, name) == Lost <==> !HasName(v, g, cat, d, name)
  {
    hide Good, SlotsOf, Usable, Hit;
    GoodDir(v, g, cat, d);
    var slots := SlotsOf(v, g, cat, d);
    var i := IndexOf(slots, name);
    if i < |slots| {
      assert Hit(slots[i], name);
    }
  }

  /** fat16_create (fs/fat16.c:738-782) */
  method Create(vol: FatVolume, t: TextPath, directory: bool, ghost cat: Cat)
    returns (ok: bool, ghost cat': Cat, ghost d: nat, ghost i: nat, ghost e: Entry)
    requires vol.Valid() && Tidy(vol.View(), vol.geo, cat) && NamesOk(t)
    modifies vol
    ensures vol.Valid() && Tidy(vol.View(), vol.geo, cat')
    ensures ok <==> t != [] && CanCreate(old(vol.View()), vol.geo, cat, t, directory)
    ensures !ok ==> AllKept(old(vol.View()), vol.View(), vol.geo, cat, cat')
    ensures ok ==> Created(old(vol.View()), vol.View(), vol.geo, cat, cat', t, directory, d, i, e)
    ensures ok && !directory ==>
              FreeIn(vol.View(), vol.geo) ==
                FreeIn(old(vol.View()), vol.geo) - GrownIn(old(vol.View()), vol.geo, cat, d)
  {
    hide Good, SlotFilled, AllKept, OneName, Usable, Walk, Fits83, To83, HasName, NewDir, FirstOf, SizeOf, IsDir,
         NameOf, Created, ParentOf, RoomIn, FreeIn, GrownIn;
    ghost var v, g := vol.View(), vol.geo;
    cat', d, i, e := cat, 0, 0, Zeros(32);
    NothingKeeps(v, g, cat);
    if t == [] {
      return false, cat, 0, 0, e;
    }
    SpelledInit(t);
    var parent;
    ok, parent := ParentHead(vol, t, cat);
    if !ok {
      return false, cat, 0, 0, e;
    }
    d := parent;
    var name := NameTo83(t[|t| - 1]);
    if name.None? {
      return false, cat, d, 0, e;
    }
    ok, cat', i, e := CreateIn(vol, parent, name.value, directory, cat);
    if ok {
      CreatedIs(v, vol.View(), g, cat, cat', t, directory, parent, i, e);
      CreatedTidy(v, vol.View(), g, cat, cat', t, directory, parent, i, e);
    } else {
      ghost var y := KeptTidy(v, vol.View(), g, cat, cat');
    }
  }

  lemma CreatedTidy(v: FatVol, w: FatVol, g: Geometry, cat: Cat, cat': Cat, t: TextPath, directory: bool, d: nat,
      i: nat, e: Entry)
    requires Created(v, w, g, cat, cat', t, directory, d, i, e)
    ensures Tidy(w, g, cat') && NamesOk(t) && t != [] && Locate(w, g, cat', t) == At(d, i) && Owned(w, g, cat', d, i)
            && SlotsOf(w, g, cat', d)[i] == e
    ensures SlotFilled(v, w, g, cat, cat', d, i, e) && IsDir(e) == directory && SizeOf(e) == 0
            && (!directory ==> FirstOf(e) == 0)
  {
    hide Good, Seek, Usable, OneName, Walk, Fits83, To83, NewDir, FirstOf, SizeOf, IsDir, NameOf, OthersKept, NoneNew,
         Owned, SlotsOf;
  }

  // ---- write ----

  /** What the file at (d, i) is to hold. */
  ghost function Combined(v: FatVol, g: Geometry, cat: Cat, d: nat, i: nat, bytes: seq<byte>, append: bool): seq<byte>
    requires Good(v, g, cat) && Owned(v, g, cat, d, i)
  {
    if append then Contents(v, g, cat, SlotsOf(v, g, cat, d)[i]) + bytes else bytes
  }

  // ---- sizes stay within 32 bits ----

  lemma {:induction false} DistinctBound(s: seq<nat>, max: nat)
    requires Distinct(s) && forall i :: 0 <= i < |s| ==> s[i] < max
    ensures |s| <= max
    decreases max
  {
    if s == [] {
    } else if k :| 0 <= k < |s| && s[k] == max - 1 {
      var t := s[..k] + s[k + 1..];
      forall i | 0 <= i < |t| ensures t[i] < max - 1 {
        assert t[i] == s[if i < k then i else i + 1];
      }
      DistinctBound(t, max - 1);
    } else {
      assert s[0] < max;
      DistinctBound(s, max - 1);
    }
  }

  /** With clusters of at most 32 KiB no file reaches 2 GiB. */
  lemma SizeBound(v: FatVol, g: Geometry, cat: Cat, e: Entry)
    requires ChainsOk(v, g, cat) && EntryOk(g, cat, e) && !IsDir(e) && g.per <= 1024
    ensures SizeOf(e) < 0x8000_0000
  {
    hide Follows, SizeOf, FirstOf;
    if FirstOf(e) != 0 {
      var s := cat.chains[FirstOf(e)];
      assert ChainOk(v, g, cat, FirstOf(e));
      DistinctBound(s, g.max);
      MulBound(|s|, g.Size());
    }
  }

  lemma MulBound(a: nat, b: nat)
    requires a <= 0xFFF8 && b <= 0x8000
    ensures a * b < 0x8000_0000
  {
    Distr(a, 0xFFF8 - a, b);
    MulNat(0xFFF8 - a, b);
  }

  /** fs/fat16.c:698-735: the part of fat16_write_file after the file is found */
  method WriteFound(vol: FatVolume, d: nat, i: nat, e: Entry, bytes: seq<byte>, append: bool, ghost cat: Cat)
    returns (ok: bool, ghost cat': Cat)
    requires vol.Valid() && FileAt(vol.View(), vol.geo, cat, d, i, e) && |bytes| < 0x8000_0000 && vol.geo.per <= 1024
    modifies vol
    ensures vol.Valid() && Good(vol.View(), vol.geo, cat')
    ensures !ok ==> cat' == cat && NothingChanged(old(vol.View()), vol.View(), vol.geo, cat)
    ensures var all := Combined(old(vol.View()), vol.geo, cat, d, i, bytes, append);
            ok <==> !(append && all == []) && Enough(old(vol.View()), vol.geo, all)
    ensures ok ==>
              FileReplaced(old(vol.View()), vol.View(), vol.geo, cat, cat', d, i,
              Combined(old(vol.View()), vol.geo, cat, d, i, bytes, append))
  {
    hide Good, FileReplaced, NothingChanged, Owned, SlotsOf, Contents, Enough;
    ghost var v, g := vol.View(), vol.geo;
    var all := bytes;
    if append {
      FileNotDir(v, g, cat, d, i, e);
      GoodChains(v, g, cat);
      var before := ReadEntry(vol, e, cat);
      ContentsSize(v, g, cat, e);
      SizeBound(v, g, cat, e);
      if |before| + |bytes| == 0 {
        Unchanged(v, g, cat);
        return false, cat;
      }
      all := before + bytes;
    }
    ok, cat' := WriteAt(vol, d, i, e, all, cat);
  }

  lemma ContentsSize(v: FatVol, g: Geometry, cat: Cat, e: Entry)
    requires ChainsOk(v, g, cat) && EntryOk(g, cat, e)
    ensures |Contents(v, g, cat, e)| <= SizeOf(e)
  {
    hide ChainsOk, ChainBytes;
  }

  lemma Unchanged(v: FatVol, g: Geometry, cat: Cat)
    requires Good(v, g, cat)
    ensures NothingChanged(v, v, g, cat)
  {
    hide Good, Owned, SlotKept;
    forall a: nat, b: nat | Owned(v, g, cat, a, b) ensures SlotKept(v, v, g, cat, cat, a, b) {
      KeptItself(v, g, cat, a, b);
    }
  }

  /** The file a path leads to. */
  ghost function Before(v: FatVol, g: Geometry, cat: Cat, t: TextPath): seq<byte>
    requires Tidy(v, g, cat) && t != [] && NamesOk(t)
  {
    var at := Locate(v, g, cat, t);
    if at == Lost then [] else LocateOwned(v, g, cat, t); Contents(v, g, cat, SlotsOf(v, g, cat, at.dir)[at.index])
  }

  /** What fat16_write_file is to store. */
  ghost function Wanted(v: FatVol, g: Geometry, cat: Cat, t: TextPath, bytes: seq<byte>, append: bool): seq<byte>
    requires Tidy(v, g, cat) && t != [] && NamesOk(t)
  {
    if append then Before(v, g, cat, t) + bytes else bytes
  }

  /** The path leads to a file, or one can be created. */
  ghost predicate Reachable(v: FatVol, g: Geometry, cat: Cat, t: TextPath)
    requires Tidy(v, g, cat) && t != [] && NamesOk(t)
  {
    var at := Locate(v, g, cat, t);
    if at == Lost then CanCreate(v, g, cat, t, false)
    else LocateOwned(v, g, cat, t); !IsDir(SlotsOf(v, g, cat, at.dir)[at.index])
  }

  /** The clusters that are left when the file is there. */
  ghost function LeftFor(v: FatVol, g: Geometry, cat: Cat, t: TextPath): int
    requires Tidy(v, g, cat) && t != [] && NamesOk(t)
  {
    if Locate(v, g, cat, t) == Lost && ParentOf(v, g, cat, t).Some?
      then FreeIn(v, g) - GrownIn(v, g, cat, ParentOf(v, g, cat, t).value) else FreeIn(v, g)
  }

  /** fat16_write_file succeeds. */
  ghost predicate CanStore(v: FatVol, g: Geometry, cat: Cat, t: TextPath, bytes: seq<byte>, append: bool)
    requires Tidy(v, g, cat) && g.Ok() && t != [] && NamesOk(t)
  {
    var all := Wanted(v, g, cat, t, bytes, append);
    && Reachable(v, g, cat, t) && !(append && all == [])
    && (all == [] || LeftFor(v, g, cat, t) >= CeilDiv(|all|, g.Size()))
  }

  /**
   * The path leads to the file in slot (d, i), which holds the bytes; every other entry and file of
   * v is kept, and no other is new.
   */
  ghost predicate StoredAt(v: FatVol, w: FatVol, g: Geometry, cat: Cat, cat': Cat, t: TextPath, d: nat, i: nat,
      bytes: seq<byte>) {
    && Tidy(v, g, cat) && Tidy(w, g, cat') && t != [] && NamesOk(t)
    && Locate(w, g, cat', t) == At(d, i) && Owned(w, g, cat', d, i) && EntryOk(g, cat', SlotsOf(w, g, cat', d)[i])
    && !IsDir(SlotsOf(w, g, cat', d)[i]) && Contents(w, g, cat', SlotsOf(w, g, cat', d)[i]) == bytes
    && OthersKept(v, w, g, cat, cat', d, i) && NoneNew(v, w, g, cat, cat', d, i)
    && (Locate(v, g, cat, t) == At(d, i) || (Locate(v, g, cat, t) == Lost && !Owned(v, g, cat, d, i)))
  }

  /** A file just created is empty and in place. */
  lemma MadeStored(v: FatVol, w: FatVol, g: Geometry, cat: Cat, cat': Cat, t: TextPath, d: nat, i: nat, e: Entry)
    requires Created(v, w, g, cat, cat', t, false, d, i, e)
    ensures StoredAt(v, w, g, cat, cat', t, d, i, [])
  {
    hide Seek, Usable, OneName, Walk, Fits83, To83, NewDir, SizeOf, NameOf, OthersKept, NoneNew, Owned, SlotsOf, Locate,
         ParentOf, EntryOk, ChainsOk, DirsOk, EntriesOk, OneOwner;
    OwnedEntry(w, g, cat', d, i);
  }

  /** Rewriting the file that is in place. */
  lemma StoredThen(v: FatVol, u: FatVol, w: FatVol, g: Geometry, cat: Cat, cat1: Cat, cat2: Cat, t: TextPath, d: nat,
      i: nat, was: seq<byte>, bytes: seq<byte>)
    requires StoredAt(v, u, g, cat, cat1, t, d, i, was) && FileReplaced(u, w, g, cat1, cat2, d, i, bytes)
    ensures StoredAt(v, w, g, cat, cat2, t, d, i, bytes)
  {
    hide Seek, Usable, OneName, Fits83, To83, NoneNew, Owned, SlotsOf, EntryOk, Good, Contents, SlotKept;
    StoredSeek(u, w, g, cat1, cat2, t, d, i, bytes);
    KeptThen(v, u, w, g, cat, cat1, cat2, d, i);
  }

  lemma StoredSeek(u: FatVol, w: FatVol, g: Geometry, cat1: Cat, cat2: Cat, t: TextPath, d: nat, i: nat,
      bytes: seq<byte>)
    requires Tidy(u, g, cat1) && FileReplaced(u, w, g, cat1, cat2, d, i, bytes) && t != [] && NamesOk(t)
    ensures Tidy(w, g, cat2) && Locate(w, g, cat2, t) == Locate(u, g, cat1, t)
  {
    hide Seek, Usable, OneName, Fits83, To83, FileReplaced, Good;
    ReplacedTidy(u, w, g, cat1, cat2, d, i, bytes);
    if Spelled(t) {
      StoredOk(t);
      ReplacedPaths(u, w, g, cat1, cat2, d, i, bytes, Stored(t));
    }
  }

  lemma KeptThen(v: FatVol, u: FatVol, w: FatVol, g: Geometry, cat: Cat, cat1: Cat, cat2: Cat, d: nat, i: nat)
    requires Good(v, g, cat) && Good(u, g, cat1) && Good(w, g, cat2)
    requires OthersKept(v, u, g, cat, cat1, d, i) && NoneNew(v, u, g, cat, cat1, d, i)
    requires OthersKept(u, w, g, cat1, cat2, d, i) && NoneNew(u, w, g, cat1, cat2, d, i)
    ensures OthersKept(v, w, g, cat, cat2, d, i) && NoneNew(v, w, g, cat, cat2, d, i)
  {
    hide Good, Owned, SlotKept;
    forall a: nat, b: nat | Owned(v, g, cat, a, b) && (a != d || b != i) ensures SlotKept(v, w, g, cat, cat2, a, b) {
      KeptOwned(v, u, g, cat, cat1, a, b);
      KeptTwice(v, u, w, g, cat, cat1, cat2, a, b);
    }
  }

  /** Nothing but the cluster data nobody uses changed. */
  lemma StoredStill(v: FatVol, u: FatVol, w: FatVol, g: Geometry, cat: Cat, cat1: Cat, t: TextPath, d: nat, i: nat,
      was: seq<byte>)
    requires StoredAt(v, u, g, cat, cat1, t, d, i, was) && NothingChanged(u, w, g, cat1)
    ensures StoredAt(v, w, g, cat, cat1, t, d, i, was)
  {
    hide Seek, Usable, OneName, Fits83, To83, NoneNew, NoneAdded, Owned, SlotsOf, EntryOk, Good, Contents, SlotKept,
         OthersKept, NothingChanged, AllKept;
    NothingAll(u, w, g, cat1);
    StillSeek(u, w, g, cat1, t);
    StillSlot(u, w, g, cat1, d, i);
    StillKept(u, w, g, cat1, d, i);
    KeptThen(v, u, w, g, cat, cat1, cat1, d, i);
  }

  lemma StillSeek(u: FatVol, w: FatVol, g: Geometry, cat: Cat, t: TextPath)
    requires Tidy(u, g, cat) && AllKept(u, w, g, cat, cat) && t != [] && NamesOk(t)
    ensures Tidy(w, g, cat) && Locate(w, g, cat, t) == Locate(u, g, cat, t)
  {
    hide Seek, Usable, OneName, Fits83, To83, AllKept, Good, Unseen;
    var y := KeptTidy(u, w, g, cat, cat);
    if Spelled(t) {
      StoredOk(t);
      KeptPaths(u, w, g, cat, cat, Stored(t));
    }
  }

  lemma StillSlot(u: FatVol, w: FatVol, g: Geometry, cat: Cat, d: nat, i: nat)
    requires NothingChanged(u, w, g, cat) && Owned(u, g, cat, d, i) && !IsDir(SlotsOf(u, g, cat, d)[i])
    ensures Good(u, g, cat) && Good(w, g, cat) && Owned(w, g, cat, d, i)
            && SlotsOf(w, g, cat, d)[i] == SlotsOf(u, g, cat, d)[i]
    ensures EntryOk(g, cat, SlotsOf(u, g, cat, d)[i])
    ensures Contents(w, g, cat, SlotsOf(w, g, cat, d)[i]) == Contents(u, g, cat, SlotsOf(u, g, cat, d)[i])
  {
    hide ChainsOk, DirsOk, OneOwner, EntryOk, Owned, SlotsOf, Contents, NoneAdded;
    assert SlotKept(u, w, g, cat, cat, d, i);
    OwnedEntry(u, g, cat, d, i);
  }

  lemma StillKept(u: FatVol, w: FatVol, g: Geometry, cat: Cat, d: nat, i: nat)
    requires NothingChanged(u, w, g, cat)
    ensures Good(u, g, cat) && Good(w, g, cat) && OthersKept(u, w, g, cat, cat, d, i)
            && NoneNew(u, w, g, cat, cat, d, i)
  {
    hide Good, Owned, SlotKept;
  }

  /** The file is there already. */
  lemma HereStored(v: FatVol, g: Geometry, cat: Cat, t: TextPath, d: nat, i: nat)
    requires Tidy(v, g, cat) && t != [] && NamesOk(t) && Locate(v, g, cat, t) == At(d, i)
    requires Owned(v, g, cat, d, i) && !IsDir(SlotsOf(v, g, cat, d)[i])
    ensures StoredAt(v, v, g, cat, cat, t, d, i, Before(v, g, cat, t))
  {
    hide Good, Owned, SlotsOf, EntryOk, Contents, SlotKept, OneName, Locate, Usable, Fits83;
    LocateOwned(v, g, cat, t);
    forall a: nat, b: nat | Owned(v, g, cat, a, b) && (a != d || b != i) ensures SlotKept(v, v, g, cat, cat, a, b) {
      KeptItself(v, g, cat, a, b);
    }
  }

  /** fs/fat16.c:681-696: find the file, creating it if it is missing; then it is found */
  method Reach(vol: FatVolume, t: TextPath, ghost cat: Cat)
    returns (ok: bool, d: nat, i: nat, e: Entry, ghost cat1: Cat)
    requires vol.Valid() && Tidy(vol.View(), vol.geo, cat) && t != [] && NamesOk(t)
    modifies vol
    ensures vol.Valid() && Tidy(vol.View(), vol.geo, cat1)
    ensures ok <==> Locate(old(vol.View()), vol.geo, cat, t).At? || CanCreate(old(vol.View()), vol.geo, cat, t, false)
    ensures !ok ==> AllKept(old(vol.View()), vol.View(), vol.geo, cat, cat1)
    ensures ok ==>
              Locate(vol.View(), vol.geo, cat1, t) == At(d, i) && Owned(vol.View(), vol.geo, cat1, d, i)
              && e == SlotsOf(vol.View(), vol.geo, cat1, d)[i]
    ensures ok ==> FreeIn(vol.View(), vol.geo) == LeftFor(old(vol.View()), vol.geo, cat, t)
    ensures ok && Locate(old(vol.View()), vol.geo, cat, t).At? ==> vol.View() == old(vol.View()) && cat1 == cat
    ensures ok && Locate(old(vol.View()), vol.geo, cat, t) == Lost ==>
              Created(old(vol.View()), vol.View(), vol.geo, cat, cat1, t, false, d, i, e)
  {
    hide Good, Owned, SlotsOf, Seek, Usable, AllKept, SlotFilled, OneName, Fits83, To83, CanCreate, Created, FreeIn,
         GrownIn, ParentOf;
    ghost var v, g := vol.View(), vol.geo;
    NothingKeeps(v, g, cat);
    cat1 := cat;
    var spelled, p := Convert(t);
    if spelled {
      ok, d, i, e := PathLookup(vol, p, cat);
      if ok {
        return;
      }
    }
    ghost var gd, gi, ge;
    ok, cat1, gd, gi, ge := Create(vol, t, false, cat);
    if !ok {
      return false, 0, 0, Zeros(32), cat1;
    }
    CreatedTidy(v, vol.View(), g, cat, cat1, t, false, gd, gi, ge);
    CreatedSpelled(v, vol.View(), g, cat, cat1, t, false, gd, gi, ge);
    ok, d, i, e := PathLookup(vol, p, cat1);
  }

  lemma CreatedSpelled(v: FatVol, w: FatVol, g: Geometry, cat: Cat, cat': Cat, t: TextPath, directory: bool, d: nat,
      i: nat, e: Entry)
    requires Created(v, w, g, cat, cat', t, directory, d, i, e)
    ensures Tidy(v, g, cat) && NamesOk(t) && t != [] && Spelled(t) && ParentOf(v, g, cat, t) == Some(d)
  {
    hide Good, Seek, Usable, OneName, Walk, Fits83, To83, NewDir, FirstOf, SizeOf, IsDir, NameOf, SlotFilled, Owned,
         SlotsOf, ParentOf;
  }

  lemma EnoughIs(v: FatVol, g: Geometry, all: seq<byte>)
    requires Shaped(v, g)
    ensures Enough(v, g, all) <==> all == [] || FreeIn(v, g) >= CeilDiv(|all|, g.Size())
  {
    hide FreeCount, CeilDiv;
  }

  /** What is combined is what was wanted. */
  lemma CombinedIs(v: FatVol, u: FatVol, g: Geometry, cat: Cat, cat1: Cat, t: TextPath, d: nat, i: nat,
      bytes: seq<byte>, append: bool)
    requires Tidy(v, g, cat) && t != [] && NamesOk(t) && StoredAt(v, u, g, cat, cat1, t, d, i, Before(v, g, cat, t))
    ensures Good(u, g, cat1) && Owned(u, g, cat1, d, i)
            && Combined(u, g, cat1, d, i, bytes, append) == Wanted(v, g, cat, t, bytes, append)
  {
    hide Good, Owned, SlotsOf, EntryOk, Contents, OneName, Locate, Usable, Fits83, OthersKept, NoneNew, Before;
  }

  /** fat16_write_file (fs/fat16.c:679-736) */
  method WriteFile(vol: FatVolume, t: TextPath, bytes: seq<byte>, append: bool, ghost cat: Cat)
    returns (ok: bool, ghost cat': Cat, ghost d: nat, ghost i: nat)
    requires vol.Valid() && Tidy(vol.View(), vol.geo, cat) && NamesOk(t) && |bytes| < 0x8000_0000 && vol.geo.per <= 1024
    modifies vol
    ensures vol.Valid() && Tidy(vol.View(), vol.geo, cat')
    ensures ok <==> t != [] && CanStore(old(vol.View()), vol.geo, cat, t, bytes, append)
    ensures ok ==>
              StoredAt(old(vol.View()), vol.View(), vol.geo, cat, cat', t, d, i,
              Wanted(old(vol.View()), vol.geo, cat, t, bytes, append))
    ensures !ok ==>
              if t != [] && Locate(old(vol.View()), vol.geo, cat, t) == Lost
              && CanCreate(old(vol.View()), vol.geo, cat, t, false)
                    then StoredAt(old(vol.View()), vol.View(), vol.geo, cat, cat', t, d, i, [])
                    else AllKept(old(vol.View()), vol.View(), vol.geo, cat, cat')
  {
    hide Good, Owned, SlotsOf, Locate, Usable, AllKept, OneName, Fits83, CanCreate, Created, FreeIn, StoredAt, Combined,
         Before, Enough, NothingChanged, FileReplaced, LeftFor, CeilDiv, IsDir;
    ghost var v, g := vol.View(), vol.geo;
    NothingKeeps(v, g, cat);
    cat', d, i := cat, 0, 0;
    if t == [] {
      return false, cat, 0, 0;
    }
    var found, dir, index, e;
    ghost var cat1;
    found, dir, index, e, cat1 := Reach(vol, t, cat);
    cat', d, i := cat1, dir, index;
    if !found {
      return false, cat1, 0, 0;
    }
    ghost var u := vol.View();
    if IsDir(e) {
      FoundFile(v, u, g, cat, cat1, t, dir, index, e);
      return false, cat1, dir, index;
    }
    InPlace(v, u, g, cat, cat1, t, dir, index, e);
    CombinedIs(v, u, g, cat, cat1, t, dir, index, bytes, append);
    EnoughIs(u, g, Wanted(v, g, cat, t, bytes, append));
    ok, cat' := WriteFound(vol, dir, index, e, bytes, append, cat1);
    if ok {
      StoredThen(v, u, vol.View(), g, cat, cat1, cat', t, dir, index, Before(v, g, cat, t),
        Wanted(v, g, cat, t, bytes, append));
      StoredTidy(v, vol.View(), g, cat, cat', t, dir, index, Wanted(v, g, cat, t, bytes, append));
    } else {
      StoredStill(v, u, vol.View(), g, cat, cat1, t, dir, index, Before(v, g, cat, t));
      StoredTidy(v, vol.View(), g, cat, cat1, t, dir, index, Before(v, g, cat, t));
      FailedHere(v, u, vol.View(), g, cat, cat1, t);
    }
  }

  lemma StoredTidy(v: FatVol, w: FatVol, g: Geometry, cat: Cat, cat': Cat, t: TextPath, d: nat, i: nat,
      bytes: seq<byte>)
    requires StoredAt(v, w, g, cat, cat', t, d, i, bytes)
    ensures Tidy(w, g, cat')
  {
    hide Good, Owned, SlotsOf, EntryOk, Contents, OneName, Locate, Usable, Fits83, OthersKept, NoneNew;
  }

  /** A directory is only found, never created for a file. */
  lemma FoundFile(v: FatVol, u: FatVol, g: Geometry, cat: Cat, cat1: Cat, t: TextPath, d: nat, i: nat, e: Entry)
    requires Tidy(v, g, cat) && t != [] && NamesOk(t) && IsDir(e)
    requires Locate(v, g, cat, t).At? ==>
               u == v && cat1 == cat && Locate(v, g, cat, t) == At(d, i) && Owned(v, g, cat, d, i)
               && e == SlotsOf(v, g, cat, d)[i]
    requires Locate(v, g, cat, t) == Lost ==> Created(v, u, g, cat, cat1, t, false, d, i, e)
    ensures Locate(v, g, cat, t).At? && !Reachable(v, g, cat, t)
  {
    hide Good, Owned, SlotsOf, Usable, OneName, Fits83, CanCreate, Locate, IsDir;
    if Locate(v, g, cat, t) == Lost {
      CreatedTidy(v, u, g, cat, cat1, t, false, d, i, e);
      assert false;
    }
  }

  /** A file is in place, holding what it held. */
  lemma InPlace(v: FatVol, u: FatVol, g: Geometry, cat: Cat, cat1: Cat, t: TextPath, d: nat, i: nat, e: Entry)
    requires Tidy(v, g, cat) && t != [] && NamesOk(t) && !IsDir(e)
    requires Locate(v, g, cat, t).At? ==>
               u == v && cat1 == cat && Locate(v, g, cat, t) == At(d, i) && Owned(v, g, cat, d, i)
               && e == SlotsOf(v, g, cat, d)[i]
    requires Locate(v, g, cat, t) == Lost ==>
               CanCreate(v, g, cat, t, false) && Created(v, u, g, cat, cat1, t, false, d, i, e)
    ensures StoredAt(v, u, g, cat, cat1, t, d, i, Before(v, g, cat, t)) && Reachable(v, g, cat, t)
    ensures Locate(v, g, cat, t) == Lost ==> Before(v, g, cat, t) == []
    ensures Shaped(u, g)
  {
    hide Good, Owned, SlotsOf, Usable, OneName, Fits83, CanCreate, Locate, Created, StoredAt, IsDir;
    if Locate(v, g, cat, t) == Lost {
      MadeStored(v, u, g, cat, cat1, t, d, i, e);
      CreatedTidy(v, u, g, cat, cat1, t, false, d, i, e);
    } else {
      HereStored(v, g, cat, t, d, i);
    }
    GoodChains(u, g, cat1);
  }

  /** A failed write of a file that was there changes nothing. */
  lemma FailedHere(v: FatVol, u: FatVol, w: FatVol, g: Geometry, cat: Cat, cat1: Cat, t: TextPath)
    requires Tidy(v, g, cat) && t != [] && NamesOk(t) && NothingChanged(u, w, g, cat1)
    ensures Locate(v, g, cat, t).At? && u == v && cat1 == cat ==> AllKept(v, w, g, cat, cat)
  {
    hide Good, Owned, Usable, OneName, Fits83, Locate, NothingChanged, AllKept;
    if u == v && cat1 == cat {
      NothingAll(v, w, g, cat);
    }
  }

  // ---- read ----

  /** fat16_read_file (fs/fat16.c:641-677) */
  method Read(vol: FatVolume, t: TextPath, ghost cat: Cat) returns (ok: bool, bytes: seq<byte>)
    requires vol.Valid() && Tidy(vol.View(), vol.geo, cat) && NamesOk(t)
    ensures ok ==> t != [] && Locate(vol.View(), vol.geo, cat, t).At? && bytes == Before(vol.View(), vol.geo, cat, t)
    ensures ok <==> t != [] && Locate(vol.View(), vol.geo, cat, t).At? && Reachable(vol.View(), vol.geo, cat, t)
  {
    hide Good, Owned, SlotsOf, Seek, Usable, OneName, Fits83, EntryOk, Contents, CanCreate;
    if t == [] {
      return false, [];
    }
    var spelled, p := Convert(t);
    if !spelled {
      return false, [];
    }
    ok, bytes := ReadFile(vol, p, cat);
  }

  // ---- unlink ----

  /** fat16_unlink accepts the path. */
  ghost predicate CanRemove(v: FatVol, g: Geometry, cat: Cat, t: TextPath, directory: bool)
    requires Tidy(v, g, cat) && t != [] && NamesOk(t)
  {
    var at := Locate(v, g, cat, t);
    at.At? && (LocateOwned(v, g, cat, t);
               var e := SlotsOf(v, g, cat, at.dir)[at.index];
               IsDir(e) == directory && (directory ==> OwnsNothing(v, g, cat, FirstOf(e))))
  }

  /** fat16_unlink (fs/fat16.c:784-803) */
  method Remove(vol: FatVolume, t: TextPath, directory: bool, ghost cat: Cat) returns (ok: bool, ghost cat': Cat)
    requires vol.Valid() && Tidy(vol.View(), vol.geo, cat) && NamesOk(t)
    modifies vol
    ensures vol.Valid() && Tidy(vol.View(), vol.geo, cat')
    ensures ok <==> t != [] && CanRemove(old(vol.View()), vol.geo, cat, t, directory)
    ensures !ok ==> vol.View() == old(vol.View()) && cat' == cat
    ensures ok ==> var at := Locate(old(vol.View()), vol.geo, cat, t);
                   at.At? && SlotRemoved(old(vol.View()), vol.View(), vol.geo, cat, cat', at.dir, at.index)
                     && Locate(vol.View(), vol.geo, cat', t) == Lost
  {
    hide Good, Owned, SlotsOf, Seek, Usable, OneName, Fits83, SlotRemoved, OwnsNothing, IsDir, FirstOf;
    ghost var v, g := vol.View(), vol.geo;
    cat' := cat;
    if t == [] {
      return false, cat;
    }
    var spelled, p := Convert(t);
    if !spelled {
      return false, cat;
    }
    if Locate(v, g, cat, t).At? {
      LocateOwned(v, g, cat, t);
    }
    ok, cat' := Unlink(vol, p, directory, cat);
    if ok {
      ghost var at := Locate(v, g, cat, t);
      RemovedPath(v, vol.View(), g, cat, cat', at.dir, at.index, p);
    }
  }

  // ---- rename ----

  /** The cluster path_parent hands to fat16_rename, which does not ask whether it is a directory's. */
  ghost function TargetOf(v: FatVol, g: Geometry, cat: Cat, t: TextPath): Option<nat>
    requires Tidy(v, g, cat) && t != [] && NamesOk(t)
  {
    if |t| == 1 then Some(0) else
      SpelledInit(t);
      var at := Locate(v, g, cat, t[..|t| - 1]);
      if at == Lost then None else LocateOwned(v, g, cat, t[..|t| - 1]); Some(OwnedFirst(v, g, cat, at.dir, at.index))
  }

  /** The target is a first cluster, or the root for an empty file. */
  lemma TargetHead(v: FatVol, g: Geometry, cat: Cat, t: TextPath)
    requires Tidy(v, g, cat) && t != [] && NamesOk(t) && TargetOf(v, g, cat, t).Some?
    ensures IsHead(cat, TargetOf(v, g, cat, t).value)
  {
    hide Good, Owned, SlotsOf, Usable, OneName, Fits83, Locate;
    if |t| > 1 {
      SpelledInit(t);
      LocateOwned(v, g, cat, t[..|t| - 1]);
    }
  }

  /** The directory of a path is the target; a target without one is the root, for an empty file. */
  lemma TargetIs(v: FatVol, g: Geometry, cat: Cat, t: TextPath)
    requires Tidy(v, g, cat) && t != [] && NamesOk(t)
    ensures ParentOf(v, g, cat, t).Some? ==> TargetOf(v, g, cat, t) == ParentOf(v, g, cat, t)
    ensures ParentOf(v, g, cat, t) == None && TargetOf(v, g, cat, t).Some? ==>
              |t| > 1 && NamesOk(t[..|t| - 1]) && Spelled(t[..|t| - 1])
                && Walk(v, g, cat, 0, Stored(t[..|t| - 1])) == None
  {
    hide Good, Owned, SlotsOf, Seek, Usable, OneName, Fits83, To83, Walk;
    SpelledInit(t);
    var s := t[..|t| - 1];
    if |t| == 1 {
      assert Stored(s) == [];
      WalkNone(v, g, cat, 0);
    } else if Spelled(s) {
      StoredOk(s);
      WalkSeek(v, g, cat, 0, Stored(s));
    }
  }

  /** fat16_rename accepts. */
  ghost predicate CanRename(v: FatVol, g: Geometry, cat: Cat, old_: TextPath, new_: TextPath)
    requires Tidy(v, g, cat) && old_ != [] && new_ != [] && NamesOk(old_) && NamesOk(new_)
  {
    var q := TargetOf(v, g, cat, new_);
    && Locate(v, g, cat, old_).At? && q.Some? && Fits83(new_[|new_| - 1])
    && Accepted(v, g, cat, q.value, To83(new_[|new_| - 1]))
  }

  /** The path's directory is one, and lies outside the directory of slot (d, i). */
  ghost predicate WayKept(v: FatVol, g: Geometry, cat: Cat, t: TextPath, d: nat, i: nat)
    requires Tidy(v, g, cat) && t != [] && NamesOk(t)
  {
    SpelledInit(t);
    ParentOf(v, g, cat, t).Some? && Spelled(t[..|t| - 1])
      && (StoredOk(t[..|t| - 1]); !Passes(v, g, cat, 0, Stored(t[..|t| - 1]), d, i))
  }

  /** A path behind something that is no directory still leads nowhere. */
  lemma StillNone(v: FatVol, w: FatVol, g: Geometry, cat: Cat, cat': Cat, d: nat, i: nat, p: Path)
    requires Tidy(v, g, cat) && Tidy(w, g, cat') && p != [] && PathOk(p) && Seek(v, g, cat, 0, p).At?
             && Walk(v, g, cat, 0, p) == None
    requires Stays(v, w, g, cat, cat', d, i) && Owned(v, g, cat, d, i)
             && NameGone(w, g, cat', d, OwnedName(v, g, cat, d, i))
    ensures Walk(w, g, cat', 0, p) == None
  {
    hide Good, Owned, SlotsOf, Seek, Usable, OneName, Walk, Passes, Leaf, NameGone, Stays;
    WalkSeek(v, g, cat, 0, p);
    WalkSeek(w, g, cat', 0, p);
    SeekMeans(v, g, cat, p);
    var at := Seek(v, g, cat, 0, p);
    if at == At(d, i) {
      GonePath(v, w, g, cat, cat', d, i, p);
    } else if Passes(v, g, cat, 0, p[..|p| - 1], d, i) {
      WalkBroken(v, w, g, cat, cat', d, i, 0, p[..|p| - 1]);
      SeekWalk(w, g, cat', 0, p);
    } else {
      SeekStays(v, w, g, cat, cat', d, i, p);
      StayAt(v, w, g, cat, cat', d, i, at.dir, at.index);
    }
  }

  /** Where the new path leads after the move into a directory. */
  lemma RenamedPath(v: FatVol, w: FatVol, g: Geometry, cat: Cat, cat': Cat, t: TextPath, d: nat, i: nat, q: nat, j: nat)
    requires Tidy(v, g, cat) && t != [] && NamesOk(t) && Fits83(t[|t| - 1]) && TargetOf(v, g, cat, t) == Some(q)
             && q in cat.dirs
    requires !HasName(v, g, cat, q, To83(t[|t| - 1])) && SlotMoved(v, w, g, cat, cat', d, i, q, j, To83(t[|t| - 1]))
    ensures Tidy(w, g, cat') && Locate(w, g, cat', t) == if WayKept(v, g, cat, t, d, i) then At(q, j) else Lost
  {
    hide Good, Owned, SlotsOf, Seek, Usable, OneName, Walk, Passes, Leaf, NameGone, Stays, SlotMoved, Fits83, To83,
         HasName;
    SpelledInit(t);
    TargetIs(v, g, cat, t);
    MovedTidy(v, w, g, cat, cat', d, i, q, j, To83(t[|t| - 1]));
    if Spelled(t) {
      StoredOk(t);
      StoredOk(t[..|t| - 1]);
      if ParentOf(v, g, cat, t).Some? {
        MovedPath(v, w, g, cat, cat', d, i, q, j, To83(t[|t| - 1]), Stored(t));
      } else {
        MovedOwned(v, w, g, cat, cat', d, i, q, j, To83(t[|t| - 1]));
        StillNone(v, w, g, cat, cat', d, i, Stored(t[..|t| - 1]));
        SeekWalk(w, g, cat', 0, Stored(t));
      }
    }
  }

  /** Behind a file the new path leads nowhere. */
  lemma LostPath(v: FatVol, w: FatVol, g: Geometry, cat: Cat, cat': Cat, t: TextPath, d: nat, i: nat, q: nat)
    requires Tidy(v, g, cat) && t != [] && NamesOk(t) && TargetOf(v, g, cat, t) == Some(q) && q !in cat.dirs
    requires SlotLost(v, w, g, cat, cat', d, i, q)
    ensures Tidy(w, g, cat') && !WayKept(v, g, cat, t, d, i) && Locate(w, g, cat', t) == Lost
  {
    hide Good, Owned, SlotsOf, Seek, Usable, OneName, Walk, Passes, Leaf, NameGone, Stays, SlotLost, Fits83, To83;
    SpelledInit(t);
    TargetIs(v, g, cat, t);
    LostTidy(v, w, g, cat, cat', d, i, q);
    if Spelled(t) {
      StoredOk(t);
      StoredOk(t[..|t| - 1]);
      StillNone(v, w, g, cat, cat', d, i, Stored(t[..|t| - 1]));
      SeekWalk(w, g, cat', 0, Stored(t));
    }
  }

  /** What both paths lead to after fat16_rename. */
  lemma RenamedPaths(v: FatVol, w: FatVol, g: Geometry, cat: Cat, cat': Cat, old_: TextPath, new_: TextPath, d: nat,
      i: nat, q: nat, j: nat)
    requires Tidy(v, g, cat) && old_ != [] && new_ != [] && NamesOk(old_) && NamesOk(new_)
             && CanRename(v, g, cat, old_, new_)
    requires Locate(v, g, cat, old_) == At(d, i) && TargetOf(v, g, cat, new_) == Some(q)
             && Outcome(v, w, g, cat, cat', d, i, q, j, To83(new_[|new_| - 1]))
    ensures Tidy(w, g, cat') && Locate(w, g, cat', old_) == Lost
    ensures Locate(w, g, cat', new_) == if WayKept(v, g, cat, new_, d, i) then At(q, j) else Lost
  {
    hide Good, Owned, SlotsOf, Seek, Usable, OneName, NameGone, Stays, SlotLost, SlotMoved, Fits83, To83, HasName,
         RoomIn, TargetOf, WayKept;
    StoredOk(old_);
    if q in cat.dirs {
      RenamedPath(v, w, g, cat, cat', new_, d, i, q, j);
      MovedAway(v, w, g, cat, cat', d, i, q, j, To83(new_[|new_| - 1]), Stored(old_));
    } else {
      LostPath(v, w, g, cat, cat', new_, d, i, q);
      LostTidy(v, w, g, cat, cat', d, i, q);
      GonePath(v, w, g, cat, cat', d, i, Stored(old_));
    }
  }

  /** path_parent (fs/fat16.c:395-414) */
  method ParentCluster(vol: FatVolume, t: TextPath, ghost cat: Cat) returns (ok: bool, d: nat)
    requires vol.Valid() && Tidy(vol.View(), vol.geo, cat) && t != [] && NamesOk(t)
    ensures TargetOf(vol.View(), vol.geo, cat, t) == if ok then Some(d) else None
  {
    hide Good, Owned, Seek, SlotsOf, Usable, OneName, Fits83;
    if |t| == 1 {
      return true, 0;
    }
    SpelledInit(t);
    var p;
    ok, p := Convert(t[..|t| - 1]);
    if !ok {
      return false, 0;
    }
    var found, a, b, e := PathLookup(vol, p, cat);
    if !found {
      return false, 0;
    }
    return true, FirstOf(e);
  }

  /** fat16_rename (fs/fat16.c:805-831), the old path not being the root */
  method Rename(vol: FatVolume, old_: TextPath, new_: TextPath, ghost cat: Cat)
    returns (ok: bool, ghost cat': Cat, ghost q: nat, ghost j: nat)
    requires vol.Valid() && Tidy(vol.View(), vol.geo, cat) && old_ != [] && NamesOk(old_) && NamesOk(new_)
    modifies vol
    ensures vol.Valid() && Tidy(vol.View(), vol.geo, cat')
    ensures ok <==> new_ != [] && CanRename(old(vol.View()), vol.geo, cat, old_, new_)
    ensures !ok ==> vol.View() == old(vol.View()) && cat' == cat
    ensures ok ==> var at := Locate(old(vol.View()), vol.geo, cat, old_);
                   && at.At? && TargetOf(old(vol.View()), vol.geo, cat, new_) == Some(q)
                   && Outcome(old(vol.View()), vol.View(), vol.geo, cat, cat', at.dir, at.index, q, j,
                      To83(new_[|new_| - 1]))
                   && Locate(vol.View(), vol.geo, cat', old_) == Lost
                   && Locate(vol.View(), vol.geo, cat', new_) ==
                        if WayKept(old(vol.View()), vol.geo, cat, new_, at.dir, at.index) then At(q, j) else Lost
  {
    hide Good, Owned, SlotsOf, Seek, Usable, OneName, Fits83, To83, Outcome, Accepted, TargetOf, WayKept;
    ghost var v, g := vol.View(), vol.geo;
    cat', q, j := cat, 0, 0;
    var spelled, p := Convert(old_);
    if !spelled {
      return false, cat, 0, 0;
    }
    var found, d, i, e := PathLookup(vol, p, cat);
    if !found || new_ == [] {
      return false, cat, 0, 0;
    }
    var target;
    ok, target := ParentCluster(vol, new_, cat);
    if !ok {
      return false, cat, 0, 0;
    }
    q := target;
    var name := NameTo83(new_[|new_| - 1]);
    if name.None? {
      return false, cat, q, 0;
    }
    TargetHead(v, g, cat, new_);
    ok, cat', j := Move(vol, d, i, e, target, name.value, cat);
    if ok {
      RenamedPaths(v, vol.View(), g, cat, cat', old_, new_, d, i, target, j);
    }
  }

  /** fat16_rename takes "/" as the old path. */
  ghost predicate CanRenameRoot(v: FatVol, g: Geometry, cat: Cat, new_: TextPath)
    requires Tidy(v, g, cat) && new_ != [] && NamesOk(new_)
  {
    var q := TargetOf(v, g, cat, new_);
    q.Some? && Fits83(new_[|new_| - 1]) && Accepted(v, g, cat, q.value, To83(new_[|new_| - 1]))
  }

  /** Something was found, so the root has a slot. */
  lemma RootNotEmpty(v: FatVol, g: Geometry, cat: Cat, t: TextPath)
    requires Tidy(v, g, cat) && |t| > 1 && NamesOk(t) && TargetOf(v, g, cat, t).Some?
    ensures |v.root| > 0
  {
    hide Good, OneName, Usable, Fits83, To83, Seek, Owned, IndexOf, FirstOf;
    SpelledInit(t);
    var p := Stored(t[..|t| - 1]);
    StoredOk(t[..|t| - 1]);
    SeekStep(v, g, cat, 0, p);
    assert SlotsOf(v, g, cat, 0) == v.root;
  }

  /**
   * fat16_rename of "/" (fs/fat16.c:805-831).  The driver takes it: the volume stays good, with the
   * same catalog but for the parent's growth, exactly if the new parent is a file with clusters, or
   * the root or an empty file and the first root slot is free.
   */
  method RenameTop(vol: FatVolume, new_: TextPath, ghost cat: Cat) returns (ok: bool, ghost cat': Cat)
    requires vol.Valid() && Tidy(vol.View(), vol.geo, cat) && NamesOk(new_)
    modifies vol
    ensures vol.Valid()
    ensures ok <==> new_ != [] && CanRenameRoot(old(vol.View()), vol.geo, cat, new_)
    ensures !ok ==> vol.View() == old(vol.View()) && cat' == cat
    ensures ok ==> |old(vol.root)| > 0 && |vol.root| > 0 && vol.root[0] == Deleted(RootEntry())
    ensures ok ==> var q := TargetOf(old(vol.View()), vol.geo, cat, new_).value;
                   Good(vol.View(), vol.geo, cat') <==> q !in cat.dirs || (q == 0 && IsFree(old(vol.root)[0]))
  {
    hide Good, Owned, SlotsOf, Usable, OneName, Fits83, To83, Accepted, TargetOf, Deleted, RootEntry, IsFree;
    ghost var v, g := vol.View(), vol.geo;
    cat' := cat;
    if new_ == [] {
      return false, cat;
    }
    var target;
    ok, target := ParentCluster(vol, new_, cat);
    if !ok {
      return false, cat;
    }
    var name := NameTo83(new_[|new_| - 1]);
    if name.None? {
      return false, cat;
    }
    TargetHead(v, g, cat, new_);
    TargetRoot(v, g, cat, new_);
    ok, cat' := RenameRoot(vol, target, name.value, cat);
  }

  lemma TargetRoot(v: FatVol, g: Geometry, cat: Cat, t: TextPath)
    requires Tidy(v, g, cat) && t != [] && NamesOk(t) && TargetOf(v, g, cat, t).Some?
    ensures TargetOf(v, g, cat, t) == Some(0) || |v.root| > 0
  {
    hide Good, OneName, Usable, Fits83, Owned, SlotsOf, Locate;
    if |t| > 1 {
      RootNotEmpty(v, g, cat, t);
    }
  }
}
