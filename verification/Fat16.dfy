/**
 * FAT16 entries, contents and paths (fs/fat16.c:331-393, 641-677): what an entry says,
 * the bytes of its file, where a path leads, and reading a file.
 *
 * A path is the list of its components' stored names; `cat` is the catalog of the
 * volume.  What a change leaves as it was is stated slot by slot.
 */
module Fat16 {
  import opened Bytes
  import opened Fat16Table
  import opened Fat16Volume
  import opened Fat16Names
  import opened Fat16Dir
  import opened Fat16Tree

  const ARCHIVE: byte := 0x20
  const DIRECTORY: byte := 0x10

  // ---- entries ----

  /** entry_set_first_cluster, with the size field */
  function Pointing(e: Entry, attr: byte, first: nat, size: nat): (r: Entry)
    requires first < 0x1_0000_0000 && size < 0x1_0000_0000
  {
    e[..11] + [attr] + e[12..20] + [first / 0x1_0000 % 256, first / 0x100_0000] + e[22..26]
      + [first % 256, first / 256 % 256] + Enc32(size)
  }

  lemma PointingReads(e: Entry, attr: byte, first: nat, size: nat)
    requires first < 0x1_0000_0000 && size < 0x1_0000_0000
    ensures var r := Pointing(e, attr, first, size);
            FirstOf(r) == first && SizeOf(r) == size && Attr(r) == attr && NameOf(r) == NameOf(e) && r[0] == e[0]
  {
    hide Enc32;
    var r := Pointing(e, attr, first, size);
    assert r[28..32] == Enc32(size)[0..4];
    U32Bytes(r, 28, Enc32(size), 0);
    PointingBytes(e, attr, first, size);
    hide Pointing;
    SplitWord(first);
  }

  lemma PointingBytes(e: Entry, attr: byte, first: nat, size: nat)
    requires first < 0x1_0000_0000 && size < 0x1_0000_0000
    ensures var r := Pointing(e, attr, first, size);
            && r[26] == first % 256 && r[27] == first / 256 % 256 && r[20] == first / 0x1_0000 % 256
            && r[21] == first / 0x100_0000
            && r[11] == attr && r[..11] == e[..11] && r[0] == e[0]
  {
    hide Enc32;
  }

  lemma SplitWord(x: nat)
    requires x < 0x1_0000_0000
    ensures x % 256 + 256 * (x / 256 % 256) + 0x1_0000 * (x / 0x1_0000 % 256 + 256 * (x / 0x100_0000)) == x
  {
    var a := x / 256;
    var b := a / 256;
    assert x / 0x1_0000 == b && x / 0x100_0000 == b / 256;
  }

  /** A fresh entry: name and attribute, everything else zero but the first cluster. */
  function NewEntry(name: seq<byte>, attr: byte, first: nat): Entry
    requires |name| == 11 && first < 0x1_0000_0000
  {
    Pointing(name + Zeros(21), attr, first, 0)
  }

  function Deleted(e: Entry): Entry { e[0 := DELETED] }

  function Renamed(e: Entry, name: seq<byte>): Entry
    requires |name| == 11
  {
    name + e[11..]
  }

  lemma RenamedReads(e: Entry, name: seq<byte>)
    requires |name| == 11
    ensures var r := Renamed(e, name);
            NameOf(r) == name && r[0] == name[0] && Attr(r) == Attr(e) && FirstOf(r) == FirstOf(e)
            && SizeOf(r) == SizeOf(e)
  {
    var r := Renamed(e, name);
    assert forall k :: 11 <= k < 32 ==> r[k] == e[k];
  }

  lemma DeletedReads(e: Entry)
    ensures Deleted(e)[0] == DELETED && !Owning(Deleted(e))
  {
  }

  // ---- contents ----

  /** The bytes of the file an entry describes. */
  ghost function Contents(v: FatVol, g: Geometry, cat: Cat, e: Entry): seq<byte>
    requires ChainsOk(v, g, cat) && EntryOk(g, cat, e)
  {
    if FirstOf(e) == 0 then [] else
      ChainFits(v, g, cat, FirstOf(e));
      FirstBytes(v.data, g, cat.chains[FirstOf(e)], SizeOf(e))
  }

  lemma ChainFits(v: FatVol, g: Geometry, cat: Cat, h: nat)
    requires ChainsOk(v, g, cat) && h in cat.chains
    ensures (forall i :: 0 <= i < |cat.chains[h]| ==> cat.chains[h][i] < |v.data|)
            && |ChainBytes(v.data, cat.chains[h])| == |cat.chains[h]| * g.Size()
    ensures Chain(v.fat, g.max, cat.chains[h]) && cat.chains[h][0] == h
  {
    assert ChainOk(v, g, cat, h);
    ChainInside(v.fat, g.max, cat.chains[h]);
    BytesLength(v.data, cat.chains[h], g.Size());
  }

  /** Another slot's entry and file are as they were. */
  ghost predicate SlotKept(v: FatVol, w: FatVol, g: Geometry, cat: Cat, cat': Cat, a: nat, b: nat)
    requires Good(v, g, cat) && Good(w, g, cat') && Owned(v, g, cat, a, b)
  {
    && Owned(w, g, cat', a, b) && SlotsOf(w, g, cat', a)[b] == SlotsOf(v, g, cat, a)[b]
    && (!IsDir(SlotsOf(v, g, cat, a)[b]) ==>
         Contents(w, g, cat', SlotsOf(w, g, cat', a)[b]) == Contents(v, g, cat, SlotsOf(v, g, cat, a)[b]))
  }

  /** Every owning slot but (d, i) is kept. */
  ghost predicate OthersKept(v: FatVol, w: FatVol, g: Geometry, cat: Cat, cat': Cat, d: nat, i: nat)
    requires Good(v, g, cat) && Good(w, g, cat')
  {
    forall a: nat, b: nat :: Owned(v, g, cat, a, b) && (a != d || b != i) ==> SlotKept(v, w, g, cat, cat', a, b)
  }

  /** Every owning slot but (d, i) owned its file before. */
  ghost predicate NoneNew(v: FatVol, w: FatVol, g: Geometry, cat: Cat, cat': Cat, d: nat, i: nat) {
    forall a: nat, b: nat :: Owned(w, g, cat', a, b) && (a != d || b != i) ==> Owned(v, g, cat, a, b)
  }

  /** Every owning slot owned its file before. */
  ghost predicate NoneAdded(v: FatVol, w: FatVol, g: Geometry, cat: Cat, cat': Cat) {
    forall a: nat, b: nat :: Owned(w, g, cat', a, b) ==> Owned(v, g, cat, a, b)
  }

  // ---- paths ----

  type Path = seq<seq<byte>>

  predicate PathOk(p: Path) {
    forall k :: 0 <= k < |p| ==> Usable(p[k])
  }

  datatype Place = Lost | At(dir: nat, index: nat)

  /** The first slot holding the name, or the number of slots. */
  function IndexOf(slots: seq<Entry>, name: seq<byte>): (k: nat)
    ensures k <= |slots| && (k < |slots| ==> Hit(slots[k], name)) && forall j :: 0 <= j < k ==> !Hit(slots[j], name)
  {
    if slots == [] || Hit(slots[0], name) then 0
    else
      var k := IndexOf(slots[1..], name);
      assert forall j :: 1 <= j < k + 1 ==> slots[j] == slots[1..][j - 1];
      k + 1
  }

  lemma IndexIs(slots: seq<Entry>, name: seq<byte>, k: nat)
    requires k <= |slots| && (k < |slots| ==> Hit(slots[k], name)) && forall j :: 0 <= j < k ==> !Hit(slots[j], name)
    ensures IndexOf(slots, name) == k
  {
  }

  /** An entry found under a usable name owns what it points to. */
  lemma FoundOwns(v: FatVol, g: Geometry, cat: Cat, d: nat, i: nat, name: seq<byte>)
    requires Good(v, g, cat) && Listable(v, g, cat, d) && i < |SlotsOf(v, g, cat, d)|
             && Hit(SlotsOf(v, g, cat, d)[i], name) && Usable(name)
    ensures Owned(v, g, cat, d, i) && EntryOk(g, cat, SlotsOf(v, g, cat, d)[i])
    ensures IsDir(SlotsOf(v, g, cat, d)[i]) ==>
              FirstOf(SlotsOf(v, g, cat, d)[i]) in cat.dirs && FirstOf(SlotsOf(v, g, cat, d)[i]) != 0
  {
    hide ChainsOk, DirsOk, OneOwner, SlotsOf, Listable, DotName;
    assert Owned(v, g, cat, d, i);
  }

  /** Where a path leads from directory d. */
  ghost function Seek(v: FatVol, g: Geometry, cat: Cat, d: nat, p: Path): Place
    requires Good(v, g, cat) && d in cat.dirs && p != [] && PathOk(p)
    decreases |p|
  {
    GoodDir(v, g, cat, d);
    var slots := SlotsOf(v, g, cat, d);
    var i := IndexOf(slots, p[0]);
    if i == |slots| then Lost
    else if |p| == 1 then At(d, i)
    else if IsDir(slots[i]) then FoundOwns(v, g, cat, d, i, p[0]); Seek(v, g, cat, FirstOf(slots[i]), p[1..])
    else Lost
  }

  /** path_lookup (fs/fat16.c:355-393), the path not being the root */
  method PathLookup(vol: FatVolume, p: Path, ghost cat: Cat) returns (found: bool, d: nat, i: nat, e: Entry)
    requires vol.Valid() && Good(vol.View(), vol.geo, cat) && p != [] && PathOk(p)
    ensures Seek(vol.View(), vol.geo, cat, 0, p) == if found then At(d, i) else Lost
    ensures found ==> Owned(vol.View(), vol.geo, cat, d, i) && e == SlotsOf(vol.View(), vol.geo, cat, d)[i]
  {
    hide Good, Owned, Usable, Listable, EndMarked, Walkable, DirSlots, Holds, SlotsOf, Hit, IndexOf, Seek, EntryOk;
    ghost var v, g := vol.View(), vol.geo;
    d := 0;
    RootDir(v, g, cat);
    ghost var goal := Seek(v, g, cat, 0, p);
    var k := 0;
    assert p[0..] == p;
    while true
      invariant 0 <= k < |p| && d in cat.dirs && goal == Seek(v, g, cat, d, p[k..])
      decreases |p| - k
    {
      GoodDir(v, g, cat, d);
      ListedIs(v, g, cat, d);
      found, i, e := FindInDir(vol, d, p[k], ChainOf(cat, d));
      FoundIs(v, g, cat, d, p[k], found, i);
      assert p[k..][0] == p[k];
      SeekStep(v, g, cat, d, p[k..]);
      if !found {
        return;
      }
      FoundOwns(v, g, cat, d, i, p[k]);
      if k + 1 == |p| {
        return;
      }
      if !IsDir(e) {
        found := false;
        return;
      }
      d := FirstOf(e);
      assert p[k..][1..] == p[k + 1..];
      k := k + 1;
    }
  }

  lemma ListedIs(v: FatVol, g: Geometry, cat: Cat, d: nat)
    requires Listable(v, g, cat, d)
    ensures (d == 0 || Holds(v.data, g.per, ChainOf(cat, d)))
            && SlotsOf(v, g, cat, d) == DirSlots(v, g, d, ChainOf(cat, d))
  {
    hide Holds, DirSlots;
  }

  /** One step of a search. */
  lemma SeekStep(v: FatVol, g: Geometry, cat: Cat, d: nat, p: Path)
    requires Good(v, g, cat) && d in cat.dirs && p != [] && PathOk(p)
    ensures Listable(v, g, cat, d) && PathOk(p[1..])
    ensures var slots := SlotsOf(v, g, cat, d);
            var i := IndexOf(slots, p[0]);
            && (i == |slots| ==> Seek(v, g, cat, d, p) == Lost)
            && (i < |slots| && |p| == 1 ==> Seek(v, g, cat, d, p) == At(d, i))
            && (i < |slots| && |p| > 1 && !IsDir(slots[i]) ==> Seek(v, g, cat, d, p) == Lost)
            && (i < |slots| && |p| > 1 && IsDir(slots[i]) ==>
                  FirstOf(slots[i]) in cat.dirs && Seek(v, g, cat, d, p) == Seek(v, g, cat, FirstOf(slots[i]), p[1..]))
  {
    hide Good, SlotsOf, Usable, Listable, EndMarked, Walkable, Owned;
    GoodDir(v, g, cat, d);
    var i := IndexOf(SlotsOf(v, g, cat, d), p[0]);
    if i < |SlotsOf(v, g, cat, d)| {
      FoundOwns(v, g, cat, d, i, p[0]);
    }
  }

  lemma RootDir(v: FatVol, g: Geometry, cat: Cat)
    requires Good(v, g, cat)
    ensures 0 in cat.dirs
  {
    hide ChainsOk, EntriesOk, OneOwner, Listable, SlotsOf;
  }

  lemma FoundIs(v: FatVol, g: Geometry, cat: Cat, d: nat, name: seq<byte>, found: bool, i: nat)
    requires Listable(v, g, cat, d)
    requires found ==> i < |SlotsOf(v, g, cat, d)| && Hit(SlotsOf(v, g, cat, d)[i], name) && forall j :: 0 <= j < i ==>
               !Hit(SlotsOf(v, g, cat, d)[j], name)
    requires !found ==> forall j :: 0 <= j < |SlotsOf(v, g, cat, d)| ==> !Hit(SlotsOf(v, g, cat, d)[j], name)
    ensures IndexOf(SlotsOf(v, g, cat, d), name) == if found then i else |SlotsOf(v, g, cat, d)|
  {
    IndexIs(SlotsOf(v, g, cat, d), name, if found then i else |SlotsOf(v, g, cat, d)|);
  }

  /** fat16_read_file (fs/fat16.c:641-677) */
  method ReadFile(vol: FatVolume, p: Path, ghost cat: Cat) returns (ok: bool, bytes: seq<byte>)
    requires vol.Valid() && Good(vol.View(), vol.geo, cat) && p != [] && PathOk(p)
    ensures var at := Seek(vol.View(), vol.geo, cat, 0, p);
            at.At? ==> && Owned(vol.View(), vol.geo, cat, at.dir, at.index)
                       && (ok <==> !IsDir(SlotsOf(vol.View(), vol.geo, cat, at.dir)[at.index]))
                       && EntryOk(vol.geo, cat, SlotsOf(vol.View(), vol.geo, cat, at.dir)[at.index])
                       && (ok ==>
                            bytes == Contents(vol.View(), vol.geo, cat,
                            SlotsOf(vol.View(), vol.geo, cat, at.dir)[at.index]))
    ensures Seek(vol.View(), vol.geo, cat, 0, p) == Lost ==> !ok
  {
    hide Owned, Seek, SlotsOf, Usable;
    var found, d, i, e := PathLookup(vol, p, cat);
    if !found || IsDir(e) {
      if found {
        assert EntryOk(vol.geo, cat, e);
      }
      return false, [];
    }
    assert EntryOk(vol.geo, cat, e);
    bytes := ReadEntry(vol, e, cat);
    return true, bytes;
  }

  method ReadEntry(vol: FatVolume, e: Entry, ghost cat: Cat) returns (bytes: seq<byte>)
    requires vol.Valid() && ChainsOk(vol.View(), vol.geo, cat) && EntryOk(vol.geo, cat, e) && !IsDir(e)
    ensures bytes == Contents(vol.View(), vol.geo, cat, e)
  {
    hide ChainsOk, Chain;
    var first := FirstOf(e);
    if first != 0 {
      ChainFits(vol.View(), vol.geo, cat, first);
    }
    bytes := vol.ReadChain(first, SizeOf(e), ChainOf(cat, first));
  }
}
