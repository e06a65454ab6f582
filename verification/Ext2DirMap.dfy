/**
 * A whole directory, a list of record-packed blocks, as a finite map from names
 * to inode numbers: what editing one record of one block does to that map.
 */
module Ext2DirMap {
  import opened Bytes
  import opened Ext2DirBlock
  import opened Ext2DirScan

  ghost predicate AllTiled(body: seq<Block>) {
    forall k :: 0 <= k < |body| ==> Tiled(body[k], 0)
  }

  /** The live entries of one block. */
  ghost function EntriesOf(b: Block): seq<Entry>
    requires Tiled(b, 0)
  {
    Live(Slots(b, 0))
  }

  /** The live entries of a directory, in scan order. */
  ghost function Flat(body: seq<Block>): seq<Entry>
    requires AllTiled(body)
  {
    if body == [] then [] else EntriesOf(body[0]) + Flat(body[1..])
  }

  /** Records tile every block and no name occurs twice. */
  ghost predicate DirOk(body: seq<Block>) {
    AllTiled(body) && Unique(Flat(body))
  }

  ghost function DirMap(body: seq<Block>): map<Name, nat>
    requires DirOk(body)
  {
    Bindings(Flat(body))
  }

  lemma {:induction false} FlatConcat(a: seq<Block>, b: seq<Block>)
    requires AllTiled(a) && AllTiled(b)
    ensures AllTiled(a + b) && Flat(a + b) == Flat(a) + Flat(b)
  {
    hide Tiled, EntriesOf;
    assert AllTiled(a + b);
    if a == [] {
      assert a + b == b;
    } else {
      calc {
        Flat(a + b);
        { assert (a + b)[1..] == a[1..] + b && (a + b)[0] == a[0]; }
        EntriesOf(a[0]) + Flat(a[1..] + b);
        { FlatConcat(a[1..], b); }
        EntriesOf(a[0]) + (Flat(a[1..]) + Flat(b));
        Flat(a) + Flat(b);
      }
    }
  }

  lemma FlatSolo(b: Block)
    requires Tiled(b, 0)
    ensures AllTiled([b]) && Flat([b]) == EntriesOf(b)
  {
    hide Tiled, EntriesOf;
  }

  /** A directory with block k replaced by c. */
  lemma FlatUpdate(body: seq<Block>, k: nat, c: Block)
    requires AllTiled(body) && k < |body| && Tiled(c, 0)
    ensures AllTiled(body[..k]) && AllTiled(body[k + 1..]) && AllTiled(body[k := c])
    ensures Flat(body[k := c]) == Flat(body[..k]) + EntriesOf(c) + Flat(body[k + 1..])
  {
    hide Tiled, EntriesOf, Flat;
    Update(body, k, c);
    FlatSolo(c);
    FlatConcat(body[..k], [c]);
    FlatConcat(body[..k] + [c], body[k + 1..]);
  }

  lemma FlatCut(body: seq<Block>, k: nat)
    requires AllTiled(body) && k < |body|
    ensures AllTiled(body[..k]) && AllTiled(body[k + 1..])
    ensures Flat(body) == Flat(body[..k]) + EntriesOf(body[k]) + Flat(body[k + 1..])
  {
    FlatUpdate(body, k, body[k]);
    assert body[k := body[k]] == body;
  }

  /** One entry inserted inside one block is one entry inserted in the directory. */
  lemma EditInsert(body: seq<Block>, k: nat, c: Block, a: seq<Entry>, x: Entry, b: seq<Entry>)
    requires DirOk(body) && k < |body| && Tiled(c, 0)
    requires EntriesOf(body[k]) == a + b && EntriesOf(c) == a + [x] + b
    requires x.name !in DirMap(body)
    ensures DirOk(body[k := c]) && DirMap(body[k := c]) == DirMap(body)[x.name := x.ino]
  {
    hide Tiled, EntriesOf, Flat, Unique, Bindings;
    FlatCut(body, k);
    FlatUpdate(body, k, c);
    var p, q := Flat(body[..k]), Flat(body[k + 1..]);
    Regroup(p, a, b, q);
    assert p + (a + [x] + b) + q == (p + a) + [x] + (b + q);
    MiddleAbsent(Flat(body), x.name);
    MiddleBindings(p + a, x, b + q);
  }

  /** One entry deleted inside one block is one entry deleted from the directory. */
  lemma EditRemove(body: seq<Block>, k: nat, c: Block, a: seq<Entry>, x: Entry, b: seq<Entry>)
    requires DirOk(body) && k < |body| && Tiled(c, 0)
    requires EntriesOf(body[k]) == a + [x] + b && EntriesOf(c) == a + b
    ensures DirOk(body[k := c]) && x.name in DirMap(body) && DirMap(body)[x.name] == x.ino
    ensures DirMap(body[k := c]) == DirMap(body) - {x.name}
  {
    hide Tiled, EntriesOf, Flat, Unique, Bindings;
    FlatCut(body, k);
    FlatUpdate(body, k, c);
    var p, q := Flat(body[..k]), Flat(body[k + 1..]);
    Regroup(p, a, b, q);
    assert p + (a + [x] + b) + q == (p + a) + [x] + (b + q);
    MiddleUnique(p + a, x, b + q);
    MiddleBindings(p + a, x, b + q);
    MiddleAbsent((p + a) + (b + q), x.name);
    var m := Bindings((p + a) + (b + q));
    assert m[x.name := x.ino] - {x.name} == m;
  }

  lemma Regroup<T>(p: seq<T>, a: seq<T>, b: seq<T>, q: seq<T>)
    ensures p + (a + b) + q == (p + a) + (b + q)
  {
  }

  lemma MiddleAbsent(e: seq<Entry>, n: Name)
    requires Unique(e)
    ensures n in Bindings(e) <==> !Absent(e, n)
  {
    if n in Bindings(e) {
      var k := BindingsKey(e, n);
    }
    if !Absent(e, n) {
      var k :| 0 <= k < |e| && e[k].name == n;
      BindingsAt(e, k);
    }
  }

  // ---- the driver's edits ----

  /** ext2_dir_insert into an existing block. */
  lemma PlaceEffect(body: seq<Block>, k: nat, j: nat, c: Block, name: Name, ino: nat, ft: byte)
    requires DirOk(body) && k < |body| && ino != 0 && name !in DirMap(body)
    requires Tiled(c, 0) && j < |Slots(body[k], 0)| && Fits(Slots(body[k], 0)[j], Needed(name))
    requires Slots(c, 0) == PlaceAt(Slots(body[k], 0), j, name, ino, ft)
    ensures DirOk(body[k := c]) && DirMap(body[k := c]) == DirMap(body)[name := ino]
  {
    hide Tiled, Slots, Flat, Live, Unique, Bindings, PlaceAt;
    var s := Slots(body[k], 0);
    PlaceAtLive(s, j, name, ino, ft);
    EditInsert(body, k, c, Live(s[..j]) + LiveOf(s[j]), Entry(name, ino), Live(s[j + 1..]));
  }

  /** ext2_dir_insert growing the directory by a block. */
  lemma GrowEffect(body: seq<Block>, c: Block, name: Name, ino: nat)
    requires DirOk(body) && ino != 0 && name !in DirMap(body)
    requires Tiled(c, 0) && EntriesOf(c) == [Entry(name, ino)]
    ensures DirOk(body + [c]) && DirMap(body + [c]) == DirMap(body)[name := ino]
  {
    hide Tiled, EntriesOf, Flat, Unique, Bindings;
    FlatSolo(c);
    FlatConcat(body, [c]);
    var e := Flat(body);
    assert e + [] == e;
    assert e + [Entry(name, ino)] + [] == e + [Entry(name, ino)];
    MiddleAbsent(e, name);
    MiddleBindings(e, Entry(name, ino), []);
  }

  /** ext2_dir_remove. */
  lemma RemoveEffect(body: seq<Block>, k: nat, j: nat, c: Block)
    requires DirOk(body) && k < |body| && Removes(body[k], c, j) && Slots(body[k], 0)[j].ino != 0
    ensures var x := Slots(body[k], 0)[j];
            && DirOk(body[k := c]) && x.name in DirMap(body) && DirMap(body)[x.name] == x.ino
            && DirMap(body[k := c]) == DirMap(body) - {x.name}
  {
    hide Tiled, Slots, Flat, Live, Unique, Bindings, RemoveAt;
    var s := Slots(body[k], 0);
    RemoveAtLive(s, j);
    EditRemove(body, k, c, Live(s[..j]), Entry(s[j].name, s[j].ino), Live(s[j + 1..]));
  }

  /** ext2_dir_set_parent. */
  lemma RepointEffect(body: seq<Block>, k: nat, j: nat, c: Block, ino: nat)
    requires DirOk(body) && k < |body| && Repoints(body[k], c, j, ino) && Slots(body[k], 0)[j].ino != 0 && ino != 0
    ensures var x := Slots(body[k], 0)[j];
            && DirOk(body[k := c]) && x.name in DirMap(body)
            && DirMap(body[k := c]) == DirMap(body)[x.name := ino]
  {
    hide Tiled, Slots, Flat, Live, Unique, Bindings;
    var s := Slots(body[k], 0);
    var x := s[j];
    var t := s[j := x.(ino := ino)];
    LiveCut(s, j);
    LiveCut(t, j);
    assert t[..j] == s[..j] && t[j + 1..] == s[j + 1..];
    FlatCut(body, k);
    FlatUpdate(body, k, c);
    var p, q := Flat(body[..k]), Flat(body[k + 1..]);
    var a, b := Live(s[..j]), Live(s[j + 1..]);
    Refit(p, a, Entry(x.name, x.ino), b, q);
    Refit(p, a, Entry(x.name, ino), b, q);
    Rebind(p + a, Entry(x.name, x.ino), Entry(x.name, ino), b + q);
  }

  lemma Refit<T>(p: seq<T>, a: seq<T>, x: T, b: seq<T>, q: seq<T>)
    ensures p + (a + [x] + b) + q == (p + a) + [x] + (b + q)
  {
  }

  lemma Rebind(a: seq<Entry>, x: Entry, y: Entry, b: seq<Entry>)
    requires Unique(a + [x] + b) && x.name == y.name
    ensures Unique(a + [y] + b) && x.name in Bindings(a + [x] + b)
    ensures Bindings(a + [y] + b) == Bindings(a + [x] + b)[x.name := y.ino]
  {
    hide Unique, Bindings, Absent;
    MiddleUnique(a, x, b);
    MiddleBindings(a, x, b);
    MiddleBindings(a, y, b);
  }

  // ---- what a scan over the blocks finds ----

  /** No block holds the name: the directory does not. */
  lemma {:induction false} AbsentEverywhere(body: seq<Block>, name: Name)
    requires AllTiled(body)
    requires forall k :: 0 <= k < |body| ==> FirstNamed(Slots(body[k], 0), name) == |Slots(body[k], 0)|
    ensures Absent(Flat(body), name)
  {
    hide Tiled, Slots, Live, FirstNamed;
    if body != [] {
      FirstNamedLive(Slots(body[0], 0), name);
      AbsentEverywhere(body[1..], name);
    }
  }

  /** A record found in some block is the directory's binding. */
  lemma FoundInBlock(body: seq<Block>, k: nat, name: Name)
    requires DirOk(body) && k < |body|
    requires FirstNamed(Slots(body[k], 0), name) < |Slots(body[k], 0)|
    ensures name in DirMap(body)
    ensures DirMap(body)[name] == Slots(body[k], 0)[FirstNamed(Slots(body[k], 0), name)].ino
  {
    hide Tiled, Slots, Live, FirstNamed, Flat, Bindings;
    var s := Slots(body[k], 0);
    FirstNamedLive(s, name);
    FlatCut(body, k);
    var x := Entry(name, s[FirstNamed(s, name)].ino);
    var i :| 0 <= i < |Live(s)| && Live(s)[i] == x;
    var p := Flat(body[..k]);
    assert Flat(body)[|p| + i] == x;
    BindingsAt(Flat(body), |p| + i);
  }

  lemma NotFound(body: seq<Block>, name: Name)
    requires DirOk(body)
    requires forall k :: 0 <= k < |body| ==> FirstNamed(Slots(body[k], 0), name) == |Slots(body[k], 0)|
    ensures name !in DirMap(body)
  {
    hide Tiled, Slots, Live, FirstNamed, Flat, Bindings;
    AbsentEverywhere(body, name);
    MiddleAbsent(Flat(body), name);
  }

  /** After a removal some block has room for a name as long. */
  lemma RoomAfterRemove(body: seq<Block>, k: nat, j: nat, c: Block, name: Name)
    requires AllTiled(body) && k < |body| && Removes(body[k], c, j)
    requires Slots(body[k], 0)[j].ino != 0 && |Slots(body[k], 0)[j].name| == |name|
    ensures AllTiled(body[k := c])
    ensures HasRoom(body[k := c], name)
  {
    hide Tiled, Slots, FirstFit, RemoveAt;
    SlotsAreOk(body[k], 0);
    RemoveAtLeavesRoom(Slots(body[k], 0), j, name);
    assert body[k := c][k] == c;
  }

  ghost predicate HasRoom(body: seq<Block>, name: Name)
    requires AllTiled(body)
  {
    exists k :: 0 <= k < |body| && FirstFit(Slots(body[k], 0), Needed(name)) < |Slots(body[k], 0)|
  }

  // ---- how many names fit ----

  lemma {:induction false} SlotsFit(s: seq<Slot>)
    requires SlotsOk(s)
    ensures 12 * |s| <= TotalLen(s)
  {
    if s != [] {
      assert SlotOk(s[0]);
      SlotsFit(s[1..]);
    }
  }

  lemma {:induction false} LiveFewer(s: seq<Slot>)
    ensures |Live(s)| <= |s|
  {
    if s != [] {
      LiveFewer(s[1..]);
    }
  }

  lemma EntriesFit(b: Block)
    requires Tiled(b, 0)
    ensures |EntriesOf(b)| <= 85
  {
    hide Tiled, Slots, Live;
    SlotsAreOk(b, 0);
    SlotsFit(Slots(b, 0));
    LiveFewer(Slots(b, 0));
  }

  lemma {:induction false} FlatFits(body: seq<Block>)
    requires AllTiled(body)
    ensures |Flat(body)| <= 85 * |body|
  {
    hide Tiled, EntriesOf;
    if body != [] {
      EntriesFit(body[0]);
      FlatFits(body[1..]);
    }
  }

  lemma {:induction false} BindingsFewer(e: seq<Entry>)
    requires Unique(e)
    ensures |Bindings(e)| <= |e|
  {
    if e == [] {
      assert Bindings(e) == map[];
    } else {
      var x, rest := e[0], e[1..];
      assert [] + [x] + rest == e && [] + rest == rest;
      MiddleUnique([], x, rest);
      MiddleBindings([], x, rest);
      BindingsFewer(rest);
      assert Bindings(rest)[x.name := x.ino].Keys == Bindings(rest).Keys + {x.name};
    }
  }

  /** A directory within the singly-indirect range holds at most 268 * 85 names. */
  lemma NamesFit(body: seq<Block>)
    requires DirOk(body) && |body| <= 268
    ensures |DirMap(body)| <= 22780
  {
    hide Tiled, Flat, Unique, Bindings;
    FlatFits(body);
    BindingsFewer(Flat(body));
  }
}
