/**
 * One directory block of fs/ext2/dir.c: a run of variable-length records packed
 * into 1024 bytes.  The block is kept as bytes; `Slots` decodes the records, and
 * the three scans (lookup, insert, remove) edit the bytes exactly as the driver
 * does and are proved against operations on the decoded record list.
 */
module Ext2DirBlock {
  import opened Bytes

  type Name = seq<byte>

  const HEADER: nat := 8

  /** A decoded record; a free record (ino 0) has no name. */
  datatype Slot = Slot(ino: nat, len: nat, name: Name, ft: byte)

  /** fs/ext2/dir.c:16 */
  function Align4(n: nat): (r: nat)
    ensures n <= r < n + 4 && r % 4 == 0
  {
    (n + 3) / 4 * 4
  }

  function Needed(name: Name): nat {
    Align4(HEADER + |name|)
  }

  // ---- decoding ----

  function Ino(b: Block, off: nat): nat requires off + 8 <= 1024 { U32(b, off) }
  function RecLen(b: Block, off: nat): nat requires off + 8 <= 1024 { U16(b, off + 4) }
  function NameLen(b: Block, off: nat): nat requires off + 8 <= 1024 { b[off + 6] }

  /** The record at `off` is in bounds, 4-aligned and, if live, large enough for its name. */
  predicate RecordOk(b: Block, off: nat) {
    && off % 4 == 0
    && off + 12 <= 1024
    && 12 <= RecLen(b, off)
    && RecLen(b, off) % 4 == 0
    && off + RecLen(b, off) <= 1024
    && (Ino(b, off) != 0 ==> 1 <= NameLen(b, off) && HEADER + NameLen(b, off) <= RecLen(b, off))
  }

  /** From `off` on, records tile the block exactly. */
  predicate Tiled(b: Block, off: nat)
    requires off <= 1024
    decreases 1024 - off
  {
    off == 1024 || (RecordOk(b, off) && Tiled(b, off + RecLen(b, off)))
  }

  function SlotAt(b: Block, off: nat): Slot
    requires RecordOk(b, off)
  {
    Slot(Ino(b, off), RecLen(b, off),
         if Ino(b, off) == 0 then [] else b[off + 8..off + 8 + NameLen(b, off)],
         if Ino(b, off) == 0 then 0 else b[off + 7])
  }

  function Slots(b: Block, off: nat): seq<Slot>
    requires off <= 1024 && Tiled(b, off)
    decreases 1024 - off
  {
    if off == 1024 then [] else [SlotAt(b, off)] + Slots(b, off + RecLen(b, off))
  }

  // ---- record lists ----

  predicate SlotOk(s: Slot) {
    && 12 <= s.len && s.len % 4 == 0
    && (s.ino == 0 ==> s.name == [])
    && (s.ino != 0 ==> 1 <= |s.name| <= 255 && Needed(s.name) <= s.len)
  }

  predicate SlotsOk(s: seq<Slot>) {
    forall j :: 0 <= j < |s| ==> SlotOk(s[j])
  }

  predicate IsNamed(s: Slot, name: Name) { s.ino != 0 && s.name == name }

  /** The position of the first live record named `name`, or |s|. */
  function FirstNamed(s: seq<Slot>, name: Name): (j: nat)
    ensures j <= |s|
    ensures j < |s| ==> IsNamed(s[j], name)
    ensures forall k :: 0 <= k < j ==> !IsNamed(s[k], name)
  {
    if s == [] then 0 else if IsNamed(s[0], name) then 0 else 1 + FirstNamed(s[1..], name)
  }

  /** A free record is reused whole; a live one gives up the space its name does not need. */
  predicate Fits(s: Slot, needed: nat) {
    if s.ino == 0 then needed <= s.len else Needed(s.name) + needed <= s.len
  }

  function FirstFit(s: seq<Slot>, needed: nat): (j: nat)
    ensures j <= |s|
    ensures j < |s| ==> Fits(s[j], needed)
    ensures forall k :: 0 <= k < j ==> !Fits(s[k], needed)
  {
    if s == [] then 0 else if Fits(s[0], needed) then 0 else 1 + FirstFit(s[1..], needed)
  }

  /** The records that replace record `s` when (name, ino) is placed in it. */
  function Placed(s: Slot, name: Name, ino: nat, ft: byte): seq<Slot>
    requires Fits(s, Needed(name))
  {
    if s.ino == 0 then [Slot(ino, s.len, name, ft)]
    else [s.(len := Needed(s.name)), Slot(ino, s.len - Needed(s.name), name, ft)]
  }

  function PlaceAt(s: seq<Slot>, j: nat, name: Name, ino: nat, ft: byte): seq<Slot>
    requires j < |s| && Fits(s[j], Needed(name))
  {
    s[..j] + Placed(s[j], name, ino, ft) + s[j + 1..]
  }

  /** The first record of a block becomes free; any other is absorbed by its predecessor. */
  function RemoveAt(s: seq<Slot>, j: nat): seq<Slot>
    requires j < |s|
  {
    if j == 0 then [Slot(0, s[0].len, [], 0)] + s[1..]
    else s[..j - 1] + [s[j - 1].(len := s[j - 1].len + s[j].len)] + s[j + 1..]
  }

  // ---- frames: a record depends only on its own bytes ----

  lemma RecordBounds(b: Block, off: nat)
    requires RecordOk(b, off)
    ensures off + 12 <= 1024 && 12 <= RecLen(b, off) && off + RecLen(b, off) <= 1024
    ensures SlotOk(SlotAt(b, off)) && SlotAt(b, off).len == RecLen(b, off)
    ensures Ino(b, off) != 0 ==> 1 <= NameLen(b, off) && HEADER + NameLen(b, off) <= RecLen(b, off)
  {
  }

  lemma SlotAtFrame(b: Block, c: Block, off: nat)
    requires RecordOk(b, off)
    requires b[off..off + RecLen(b, off)] == c[off..off + RecLen(b, off)]
    ensures RecordOk(c, off) && RecLen(c, off) == RecLen(b, off) && SlotAt(c, off) == SlotAt(b, off)
  {
    hide U16, U32;
    RecordBounds(b, off);
    var n := RecLen(b, off);
    SubSlice(b, c, off, n, 0, 8);
    HeaderFrame(b, c, off);
    if Ino(b, off) != 0 {
      SubSlice(b, c, off, n, 8, 8 + NameLen(b, off));
    }
  }

  lemma HeaderFrame(b: Block, c: Block, off: nat)
    requires off + 8 <= 1024 && b[off..off + 8] == c[off..off + 8]
    ensures Ino(b, off) == Ino(c, off) && RecLen(b, off) == RecLen(c, off)
    ensures NameLen(b, off) == NameLen(c, off) && b[off + 7] == c[off + 7]
  {
    SubSlice(b, c, off, 8, 0, 4);
    U32Bytes(b, off, c, off);
    var x, y := b[off..off + 8], c[off..off + 8];
    assert x[4] == y[4] && x[5] == y[5] && x[6] == y[6] && x[7] == y[7];
  }

  lemma {:induction false} TailFrame(b: Block, c: Block, off: nat)
    requires off <= 1024 && Tiled(b, off) && b[off..] == c[off..]
    ensures Tiled(c, off) && Slots(c, off) == Slots(b, off)
    decreases 1024 - off
  {
    hide RecordOk, SlotAt, U16, U32;
    if off != 1024 {
      RecordBounds(b, off);
      var n := RecLen(b, off);
      assert b[off..off + n] == b[off..][..n] == c[off..][..n] == c[off..off + n];
      SlotAtFrame(b, c, off);
      assert b[off + n..] == b[off..][n..] == c[off..][n..] == c[off + n..];
      TailFrame(b, c, off + n);
    }
  }

  /** `off` is the start of a record (or the end of the block) reached from 0 in `pre`. */
  predicate Reached(b: Block, from: nat, off: nat, pre: seq<Slot>)
    requires from <= 1024
    decreases |pre|
  {
    if pre == [] then from == off
    else from < 1024 && RecordOk(b, from) && SlotAt(b, from) == pre[0]
         && Reached(b, from + RecLen(b, from), off, pre[1..])
  }

  lemma {:induction false} ReachedBound(b: Block, from: nat, off: nat, pre: seq<Slot>)
    requires from <= 1024 && Reached(b, from, off, pre)
    ensures from <= off <= 1024
    decreases |pre|
  {
    hide RecordOk, SlotAt, U16, U32;
    if pre != [] {
      RecordBounds(b, from);
      ReachedBound(b, from + RecLen(b, from), off, pre[1..]);
    }
  }

  lemma {:induction false} ReachedStep(b: Block, from: nat, off: nat, pre: seq<Slot>)
    requires from <= 1024 && off < 1024 && Reached(b, from, off, pre) && RecordOk(b, off)
    ensures Reached(b, from, off + RecLen(b, off), pre + [SlotAt(b, off)])
    decreases |pre|
  {
    hide RecordOk, SlotAt, U16, U32;
    RecordBounds(b, off);
    var more := pre + [SlotAt(b, off)];
    if pre == [] {
      assert more[1..] == [];
    } else {
      RecordBounds(b, from);
      ReachedStep(b, from + RecLen(b, from), off, pre[1..]);
      assert more[1..] == pre[1..] + [SlotAt(b, off)];
    }
  }

  /** Bytes before `off` fix the records before `off`. */
  lemma {:induction false} ReachedFrame(b: Block, c: Block, from: nat, off: nat, pre: seq<Slot>)
    requires from <= off <= 1024 && Reached(b, from, off, pre) && b[from..off] == c[from..off]
    ensures Reached(c, from, off, pre)
    decreases |pre|
  {
    hide RecordOk, SlotAt, U16, U32;
    if pre != [] {
      RecordBounds(b, from);
      var n := RecLen(b, from);
      ReachedBound(b, from + n, off, pre[1..]);
      assert b[from..from + n] == b[from..off][..n] == c[from..off][..n] == c[from..from + n];
      SlotAtFrame(b, c, from);
      assert b[from + n..off] == b[from..off][n..] == c[from..off][n..] == c[from + n..off];
      ReachedFrame(b, c, from + n, off, pre[1..]);
    }
  }

  lemma {:induction false} GlueTiled(b: Block, from: nat, off: nat, pre: seq<Slot>)
    requires from <= 1024 && off <= 1024 && Reached(b, from, off, pre) && Tiled(b, off)
    ensures Tiled(b, from)
    decreases |pre|
  {
    hide RecordOk, SlotAt, U16, U32;
    if pre != [] {
      RecordBounds(b, from);
      GlueTiled(b, from + RecLen(b, from), off, pre[1..]);
    }
  }

  /** Records before `off` followed by a tiled tail tile the whole. */
  lemma {:induction false} Glue(b: Block, from: nat, off: nat, pre: seq<Slot>)
    requires from <= 1024 && off <= 1024 && Reached(b, from, off, pre) && Tiled(b, off)
    ensures Tiled(b, from) && Slots(b, from) == pre + Slots(b, off)
    decreases |pre|
  {
    hide RecordOk, SlotAt, U16, U32;
    GlueTiled(b, from, off, pre);
    if pre != [] {
      RecordBounds(b, from);
      var n := RecLen(b, from);
      Glue(b, from + n, off, pre[1..]);
      SlotsCons(b, from);
    }
    ConsAssoc(pre, Slots(b, off));
  }

  lemma ConsAssoc(pre: seq<Slot>, tail: seq<Slot>)
    ensures if pre == [] then pre + tail == tail else pre + tail == [pre[0]] + (pre[1..] + tail)
  {
  }

  lemma SlotsCons(b: Block, off: nat)
    requires off < 1024 && Tiled(b, off)
    ensures RecordOk(b, off)
    ensures Slots(b, off) == [SlotAt(b, off)] + Slots(b, off + RecLen(b, off))
  {
    hide RecordOk, SlotAt, U16, U32;
  }

  lemma {:induction false} SlotsAreOk(b: Block, off: nat)
    requires off <= 1024 && Tiled(b, off)
    ensures SlotsOk(Slots(b, off))
    ensures TotalLen(Slots(b, off)) == 1024 - off
    decreases 1024 - off
  {
    hide RecordOk, SlotAt, SlotOk, U16, U32;
    if off != 1024 {
      RecordBounds(b, off);
      var x, rest := SlotAt(b, off), Slots(b, off + RecLen(b, off));
      SlotsAreOk(b, off + RecLen(b, off));
      SlotsCons(b, off);
      assert ([x] + rest)[1..] == rest;
    }
  }

  function TotalLen(s: seq<Slot>): nat {
    if s == [] then 0 else s[0].len + TotalLen(s[1..])
  }

  // ---- live entries, and the finite map they spell ----

  datatype Entry = Entry(name: Name, ino: nat)

  function LiveOf(x: Slot): seq<Entry> {
    if x.ino == 0 then [] else [Entry(x.name, x.ino)]
  }

  function Live(s: seq<Slot>): seq<Entry> {
    if s == [] then [] else LiveOf(s[0]) + Live(s[1..])
  }

  predicate Unique(e: seq<Entry>) {
    forall j, k :: 0 <= j < k < |e| ==> e[j].name != e[k].name
  }

  predicate Absent(e: seq<Entry>, name: Name) {
    forall j :: 0 <= j < |e| ==> e[j].name != name
  }

  ghost function Bindings(e: seq<Entry>): map<Name, nat>
    requires Unique(e)
  {
    map j | 0 <= j < |e| :: e[j].name := e[j].ino
  }

  lemma {:induction false} LiveConcat(s: seq<Slot>, t: seq<Slot>)
    ensures Live(s + t) == Live(s) + Live(t)
  {
    if s == [] {
      assert s + t == t;
    } else {
      calc {
        Live(s + t);
        { assert (s + t)[1..] == s[1..] + t && (s + t)[0] == s[0]; }
        LiveOf(s[0]) + Live(s[1..] + t);
        { LiveConcat(s[1..], t); }
        LiveOf(s[0]) + (Live(s[1..]) + Live(t));
        Live(s) + Live(t);
      }
    }
  }

  lemma LiveSingle(x: Slot)
    ensures Live([x]) == LiveOf(x)
  {
  }

  lemma LiveMiddle(s: seq<Slot>, m: seq<Slot>, t: seq<Slot>)
    ensures Live(s + m + t) == Live(s) + Live(m) + Live(t)
  {
    LiveConcat(s + m, t);
    LiveConcat(s, m);
  }

  lemma LivePlaced(s: Slot, name: Name, ino: nat, ft: byte)
    requires ino != 0 && Fits(s, Needed(name))
    ensures Live(Placed(s, name, ino, ft)) == LiveOf(s) + [Entry(name, ino)]
  {
    var p := Placed(s, name, ino, ft);
    LiveSingle(p[0]);
    if s.ino != 0 {
      LiveSingle(p[1]);
      LiveConcat([p[0]], [p[1]]);
      assert p == [p[0]] + [p[1]];
    }
  }

  /** A record list cut around record j. */
  lemma LiveCut(s: seq<Slot>, j: nat)
    requires j < |s|
    ensures Live(s) == Live(s[..j]) + LiveOf(s[j]) + Live(s[j + 1..])
  {
    Cut(s, j);
    LiveMiddle(s[..j], [s[j]], s[j + 1..]);
    LiveSingle(s[j]);
  }

  /** Placing a name inserts one entry and keeps every other, in order. */
  lemma PlaceAtLive(s: seq<Slot>, j: nat, name: Name, ino: nat, ft: byte)
    requires ino != 0 && j < |s| && Fits(s[j], Needed(name))
    ensures var a, b := Live(s[..j]) + LiveOf(s[j]), Live(s[j + 1..]);
            Live(s) == a + b && Live(PlaceAt(s, j, name, ino, ft)) == a + [Entry(name, ino)] + b
  {
    LiveCut(s, j);
    LiveMiddle(s[..j], Placed(s[j], name, ino, ft), s[j + 1..]);
    LivePlaced(s[j], name, ino, ft);
    Assoc(Live(s[..j]), LiveOf(s[j]), [Entry(name, ino)]);
  }

  /** Removing a record deletes one entry and keeps every other, in order. */
  lemma RemoveAtLive(s: seq<Slot>, j: nat)
    requires j < |s| && s[j].ino != 0
    ensures var a, b := Live(s[..j]), Live(s[j + 1..]);
            Live(s) == a + [Entry(s[j].name, s[j].ino)] + b && Live(RemoveAt(s, j)) == a + b
  {
    LiveCut(s, j);
    if j > 0 {
      RemoveLater(s, j);
    } else {
      RemoveFirst(s);
    }
  }

  lemma RemoveLater(s: seq<Slot>, j: nat)
    requires 0 < j < |s|
    ensures Live(RemoveAt(s, j)) == Live(s[..j]) + Live(s[j + 1..])
  {
    var merged := s[j - 1].(len := s[j - 1].len + s[j].len);
    LiveMiddle(s[..j - 1], [merged], s[j + 1..]);
    LiveSingle(merged);
    LiveSingle(s[j - 1]);
    LiveConcat(s[..j - 1], [s[j - 1]]);
    assert s[..j - 1] + [s[j - 1]] == s[..j];
  }

  lemma RemoveFirst(s: seq<Slot>)
    requires s != []
    ensures Live(RemoveAt(s, 0)) == Live(s[..0]) + Live(s[1..])
  {
    var freed := Slot(0, s[0].len, [], 0);
    LiveConcat([freed], s[1..]);
    LiveSingle(freed);
  }

  lemma BindingsAt(e: seq<Entry>, k: nat)
    requires Unique(e) && k < |e|
    ensures e[k].name in Bindings(e) && Bindings(e)[e[k].name] == e[k].ino
  {
  }

  lemma BindingsKey(e: seq<Entry>, n: Name) returns (k: nat)
    requires Unique(e) && n in Bindings(e)
    ensures k < |e| && e[k].name == n && Bindings(e)[n] == e[k].ino
  {
    k :| 0 <= k < |e| && e[k].name == n;
  }

  /** An entry inserted in (or deleted from) a list of distinct names. */
  lemma MiddleBindings(a: seq<Entry>, x: Entry, b: seq<Entry>)
    requires Unique(a + b) && Absent(a + b, x.name)
    ensures Unique(a + [x] + b)
    ensures Bindings(a + [x] + b) == Bindings(a + b)[x.name := x.ino]
  {
    MiddleUnique(a, x, b);
    var p, q := a + b, a + [x] + b;
    var m, w := Bindings(p)[x.name := x.ino], Bindings(q);
    forall n | n in w ensures n in m && w[n] == m[n] {
      MiddleBindingsOld(a, x, b, n);
    }
    forall n | n in m ensures n in w {
      MiddleBindingsNew(a, x, b, n);
    }
  }

  lemma MiddleBindingsOld(a: seq<Entry>, x: Entry, b: seq<Entry>, n: Name)
    requires Unique(a + b) && Unique(a + [x] + b) && n in Bindings(a + [x] + b)
    ensures n == x.name ==> Bindings(a + [x] + b)[n] == x.ino
    ensures n != x.name ==> n in Bindings(a + b) && Bindings(a + [x] + b)[n] == Bindings(a + b)[n]
  {
    var p, q := a + b, a + [x] + b;
    var k := BindingsKey(q, n);
    assert q[|a|] == x;
    if n != x.name {
      var t := if k < |a| then k else k - 1;
      assert p[t] == q[k];
      BindingsAt(p, t);
    }
  }

  lemma MiddleBindingsNew(a: seq<Entry>, x: Entry, b: seq<Entry>, n: Name)
    requires Unique(a + b) && Unique(a + [x] + b)
    requires n == x.name || n in Bindings(a + b)
    ensures n in Bindings(a + [x] + b)
  {
    var p, q := a + b, a + [x] + b;
    if n == x.name {
      assert q[|a|] == x;
      BindingsAt(q, |a|);
    } else {
      var k := BindingsKey(p, n);
      var t := if k < |a| then k else k + 1;
      assert q[t] == p[k];
      BindingsAt(q, t);
    }
  }

  lemma MiddleUnique(a: seq<Entry>, x: Entry, b: seq<Entry>)
    ensures Unique(a + [x] + b) <==> Unique(a + b) && Absent(a + b, x.name)
  {
    var p, q := a + b, a + [x] + b;
    if Unique(q) {
      forall j | 0 <= j < |p| ensures p[j].name != x.name {
        assert q[|a|] == x;
        assert p[j] == q[if j < |a| then j else j + 1];
      }
      forall j, k | 0 <= j < k < |p| ensures p[j].name != p[k].name {
        assert p[j] == q[if j < |a| then j else j + 1];
        assert p[k] == q[if k < |a| then k else k + 1];
      }
    }
    if Unique(p) && Absent(p, x.name) {
      forall j, k | 0 <= j < k < |q| ensures q[j].name != q[k].name {
        if j < |a| { assert q[j] == p[j]; } else if j > |a| { assert q[j] == p[j - 1]; }
        if k < |a| { assert q[k] == p[k]; } else if k > |a| { assert q[k] == p[k - 1]; }
      }
    }
  }

  /** The scan finds a record exactly when its name is live. */
  lemma {:induction false} FirstNamedLive(s: seq<Slot>, name: Name)
    ensures FirstNamed(s, name) == |s| <==> Absent(Live(s), name)
    ensures var j := FirstNamed(s, name); j < |s| ==> Entry(name, s[j].ino) in Live(s)
  {
    var e := Live(s);
    if s != [] {
      FirstNamedLive(s[1..], name);
      var t := Live(s[1..]);
      if s[0].ino == 0 {
        assert e == t;
      } else {
        assert e[0] == Entry(s[0].name, s[0].ino) && e[1..] == t;
        assert forall j :: 0 <= j < |t| ==> e[j + 1] == t[j];
        assert forall j :: 0 < j < |e| ==> e[j] == t[j - 1];
      }
    }
  }

  /** Removing a record leaves room for a record with a name as long, wherever it stood. */
  lemma RemoveAtLeavesRoom(s: seq<Slot>, j: nat, name: Name)
    requires SlotsOk(s) && j < |s| && s[j].ino != 0 && |name| == |s[j].name|
    ensures FirstFit(RemoveAt(s, j), Needed(name)) < |RemoveAt(s, j)|
  {
    var p := RemoveAt(s, j);
    var at := if j == 0 then 0 else j - 1;
    assert SlotOk(s[j]) && SlotOk(s[at]);
    assert Fits(p[at], Needed(name));
  }

  // ---- byte edits of one record ----

  /** Bytes outside [lo, hi) are the same. */
  predicate SameOutside(b: Block, c: Block, lo: nat, hi: nat)
    requires lo <= hi <= 1024
  {
    b[..lo] == c[..lo] && b[hi..] == c[hi..]
  }

  /** Replacing the records in [off, off + n) by `mid`. */
  lemma Splice(b: Block, c: Block, off: nat, n: nat, pre: seq<Slot>, mid: seq<Slot>)
    requires off + n <= 1024 && SameOutside(b, c, off, off + n)
    requires Reached(b, 0, off, pre) && Tiled(b, off + n)
    requires Reached(c, off, off + n, mid)
    ensures Tiled(c, 0) && Slots(c, 0) == pre + mid + Slots(b, off + n)
  {
    hide Slots, Tiled, Reached;
    SpliceTail(b, c, off, off + n, mid);
    SpliceHead(b, c, off, pre);
    Assoc(pre, mid, Slots(b, off + n));
  }

  lemma SpliceTail(b: Block, c: Block, off: nat, end: nat, mid: seq<Slot>)
    requires off <= end <= 1024 && b[end..] == c[end..] && Tiled(b, end) && Reached(c, off, end, mid)
    ensures Tiled(c, off) && Slots(c, off) == mid + Slots(b, end)
  {
    hide Slots, Tiled, Reached;
    TailFrame(b, c, end);
    Glue(c, off, end, mid);
  }

  lemma SpliceHead(b: Block, c: Block, off: nat, pre: seq<Slot>)
    requires off <= 1024 && b[..off] == c[..off] && Reached(b, 0, off, pre) && Tiled(c, off)
    ensures Tiled(c, 0) && Slots(c, 0) == pre + Slots(c, off)
  {
    hide Slots, Tiled, Reached;
    assert b[0..off] == b[..off] == c[..off] == c[0..off];
    ReachedFrame(b, c, 0, off, pre);
    Glue(c, 0, off, pre);
  }

  lemma ReachedOne(c: Block, off: nat)
    requires RecordOk(c, off)
    ensures Reached(c, off, off + RecLen(c, off), [SlotAt(c, off)])
  {
    var one := [SlotAt(c, off)];
    assert one[1..] == [];
  }

  lemma ReachedTwo(c: Block, off: nat)
    requires RecordOk(c, off) && RecordOk(c, off + RecLen(c, off))
    ensures var next := off + RecLen(c, off);
            Reached(c, off, next + RecLen(c, next), [SlotAt(c, off), SlotAt(c, next)])
  {
    var next := off + RecLen(c, off);
    ReachedOne(c, next);
    var two := [SlotAt(c, off), SlotAt(c, next)];
    assert two[1..] == [SlotAt(c, next)];
  }

  /** The header and name bytes of a record. */
  function RecordBytes(ino: nat, len: nat, name: Name, ft: byte): (r: seq<byte>)
    requires ino < 0x1_0000_0000 && len < 0x1_0000 && |name| <= 255
    ensures |r| == HEADER + |name|
  {
    Enc32(ino) + Enc16(len) + [|name|, ft] + name
  }

  /** A record written over [off, ...) reads back. */
  lemma RecordReads(c: Block, off: nat, ino: nat, len: nat, name: Name, ft: byte)
    requires 0 < ino < 0x1_0000_0000 && 1 <= |name| <= 255
    requires off % 4 == 0 && 12 <= len && len % 4 == 0 && HEADER + |name| <= len && off + len <= 1024
    requires c[off..off + HEADER + |name|] == RecordBytes(ino, len, name, ft)
    ensures RecordOk(c, off) && RecLen(c, off) == len && SlotAt(c, off) == Slot(ino, len, name, ft)
  {
    var r := RecordBytes(ino, len, name, ft);
    var w := c[off..off + HEADER + |name|];
    U32Bytes(c, off, Enc32(ino), 0) by { assert c[off..off + 4] == w[..4] == r[..4] == Enc32(ino) == Enc32(ino)[0..4]; }
    assert c[off + 4] == w[4] == r[4] == Enc16(len)[0];
    assert c[off + 5] == w[5] == r[5] == Enc16(len)[1];
    assert c[off + 6] == w[6] == r[6] == |name|;
    assert c[off + 7] == w[7] == r[7] == ft;
    assert c[off + 8..off + 8 + |name|] == w[8..] == r[8..] == name;
  }

  /** Rewriting rec_len alone. */
  lemma ResizeReads(b: Block, off: nat, len: nat)
    requires RecordOk(b, off) && 12 <= len && len % 4 == 0 && off + len <= 1024
    requires Ino(b, off) != 0 ==> HEADER + NameLen(b, off) <= len
    ensures var c := Put(b, off + 4, Enc16(len));
            RecordOk(c, off) && RecLen(c, off) == len && SlotAt(c, off) == SlotAt(b, off).(len := len)
  {
    var c := Put(b, off + 4, Enc16(len));
    assert c[off + 4] == Enc16(len)[0] && c[off + 5] == Enc16(len)[1];
    U32Bytes(b, off, c, off) by { assert b[off..off + 4] == c[off..off + 4]; }
    if Ino(b, off) != 0 {
      assert b[off + 8..off + 8 + NameLen(b, off)] == c[off + 8..off + 8 + NameLen(b, off)];
    }
  }

  /** Rewriting the inode number alone. */
  lemma RenumberReads(b: Block, off: nat, ino: nat)
    requires RecordOk(b, off) && ino < 0x1_0000_0000
    requires ino != 0 ==> Ino(b, off) != 0
    ensures var c := Put(b, off, Enc32(ino));
            RecordOk(c, off) && RecLen(c, off) == RecLen(b, off)
            && SlotAt(c, off) == if ino == 0 then Slot(0, RecLen(b, off), [], 0) else SlotAt(b, off).(ino := ino)
  {
    var c := Put(b, off, Enc32(ino));
    PutU32(b, off, ino, off);
    if ino != 0 {
      assert b[off + 8..off + 8 + NameLen(b, off)] == c[off + 8..off + 8 + NameLen(b, off)];
    }
  }

  /** Reusing a free record (fs/ext2/dir.c:238-247). */
  function Reuse(b: Block, off: nat, name: Name, ino: nat, ft: byte): Block
    requires off + 8 + |name| <= 1024 && ino < 0x1_0000_0000 && |name| <= 255
  {
    Put(Put(b, off, Enc32(ino)), off + 6, [|name|, ft] + name)
  }

  lemma ReuseReads(b: Block, off: nat, name: Name, ino: nat, ft: byte)
    requires RecordOk(b, off) && Needed(name) <= RecLen(b, off)
    requires 0 < ino < 0x1_0000_0000 && 1 <= |name| <= 255
    ensures var c := Reuse(b, off, name, ino, ft);
            RecordOk(c, off) && RecLen(c, off) == RecLen(b, off)
              && SlotAt(c, off) == Slot(ino, RecLen(b, off), name, ft)
            && SameOutside(b, c, off, off + RecLen(b, off))
  {
    var c := Reuse(b, off, name, ino, ft);
    var r := RecordBytes(ino, RecLen(b, off), name, ft);
    assert Enc16(RecLen(b, off)) == [b[off + 4], b[off + 5]];
    assert c[off..off + HEADER + |name|] == r;
    RecordReads(c, off, ino, RecLen(b, off), name, ft);
    assert b[..off] == c[..off];
    assert b[off + RecLen(b, off)..] == c[off + RecLen(b, off)..];
  }

  /** Splitting the slack off a live record (fs/ext2/dir.c:249-263). */
  function Split(b: Block, off: nat, name: Name, ino: nat, ft: byte): Block
    requires RecordOk(b, off) && HEADER + NameLen(b, off) <= RecLen(b, off)
    requires Align4(HEADER + NameLen(b, off)) + Needed(name) <= RecLen(b, off)
    requires ino < 0x1_0000_0000 && |name| <= 255
  {
    var actual := Align4(HEADER + NameLen(b, off));
    Put(Put(b, off + 4, Enc16(actual)), off + actual, RecordBytes(ino, RecLen(b, off) - actual, name, ft))
  }

  predicate CanSplit(b: Block, off: nat, name: Name, ino: nat) {
    && RecordOk(b, off) && Ino(b, off) != 0
    && Align4(HEADER + NameLen(b, off)) + Needed(name) <= RecLen(b, off)
    && 0 < ino < 0x1_0000_0000 && 1 <= |name| <= 255
  }

  lemma SplitOutside(b: Block, off: nat, name: Name, ino: nat, ft: byte)
    requires CanSplit(b, off, name, ino)
    ensures SameOutside(b, Split(b, off, name, ino, ft), off, off + RecLen(b, off))
  {
    var c, end := Split(b, off, name, ino, ft), off + RecLen(b, off);
    assert b[..off] == c[..off];
    assert b[end..] == c[end..];
  }

  lemma SplitHead(b: Block, off: nat, name: Name, ino: nat, ft: byte)
    requires CanSplit(b, off, name, ino)
    ensures var c, s := Split(b, off, name, ino, ft), SlotAt(b, off);
            RecordOk(c, off) && RecLen(c, off) == Needed(s.name) && SlotAt(c, off) == s.(len := Needed(s.name))
  {
    hide U16, U32, Put, RecordBytes, Enc16, Enc32;
    RecordBounds(b, off);
    var actual := Align4(HEADER + NameLen(b, off));
    var mid := Put(b, off + 4, Enc16(actual));
    ResizeReads(b, off, actual);
    var c := Put(mid, off + actual, RecordBytes(ino, RecLen(b, off) - actual, name, ft));
    PutOutside(mid, off + actual, RecordBytes(ino, RecLen(b, off) - actual, name, ft), off, off + actual);
    SlotAtFrame(mid, c, off);
  }

  lemma SplitNext(b: Block, off: nat, name: Name, ino: nat, ft: byte)
    requires CanSplit(b, off, name, ino)
    ensures var c := Split(b, off, name, ino, ft);
            var actual := Align4(HEADER + NameLen(b, off));
            var next, left := off + actual, RecLen(b, off) - actual;
            RecordOk(c, next) && RecLen(c, next) == left && SlotAt(c, next) == Slot(ino, left, name, ft)
  {
    hide U16, U32, Put, RecordBytes, SlotAt, Enc16, Enc32;
    var actual := Align4(HEADER + NameLen(b, off));
    SplitFits(b, off, name, ino);
    AfterHead(Put(b, off + 4, Enc16(actual)), off + actual, RecLen(b, off) - actual, name, ino, ft);
  }

  lemma SplitFits(b: Block, off: nat, name: Name, ino: nat)
    requires CanSplit(b, off, name, ino)
    ensures var actual := Align4(HEADER + NameLen(b, off));
            var left := RecLen(b, off) - actual;
            && (off + actual) % 4 == 0 && 12 <= left && left % 4 == 0 && HEADER + |name| <= left
            && off + actual + left <= 1024
            && actual < 0x1_0000 && off + 6 <= 1024 && HEADER + NameLen(b, off) <= RecLen(b, off)
  {
    hide U16, U32;
  }

  /** A record put into a block reads back there. */
  lemma AfterHead(b: Block, next: nat, left: nat, name: Name, ino: nat, ft: byte)
    requires 0 < ino < 0x1_0000_0000 && 1 <= |name| <= 255
    requires next % 4 == 0 && 12 <= left && left % 4 == 0 && HEADER + |name| <= left && next + left <= 1024
    ensures var c := Put(b, next, RecordBytes(ino, left, name, ft));
            RecordOk(c, next) && RecLen(c, next) == left && SlotAt(c, next) == Slot(ino, left, name, ft)
  {
    hide U16, U32, Put, RecordBytes, SlotAt, Enc16, Enc32, RecordOk;
    PutSlice(b, next, RecordBytes(ino, left, name, ft));
    RecordReads(Put(b, next, RecordBytes(ino, left, name, ft)), next, ino, left, name, ft);
  }

  lemma SplitReads(b: Block, off: nat, name: Name, ino: nat, ft: byte)
    requires CanSplit(b, off, name, ino)
    ensures var c, s := Split(b, off, name, ino, ft), SlotAt(b, off);
            Reached(c, off, off + s.len, Placed(s, name, ino, ft))
  {
    hide U16, U32, Put, RecordBytes, Split;
    SplitHead(b, off, name, ino, ft);
    SplitNext(b, off, name, ino, ft);
    ReachedTwo(Split(b, off, name, ino, ft), off);
  }
}
