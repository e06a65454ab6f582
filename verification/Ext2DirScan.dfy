/**
 * The record scans of fs/ext2/dir.c over one directory block: each walks the
 * packed records by byte offset and edits the buffer in place.
 */
module Ext2DirScan {
  import opened Bytes
  import opened Ext2DirBlock

  /** The walk stands at `off` with the records `pre` behind it. */
  ghost predicate At(b: Block, off: nat, pre: seq<Slot>) {
    && off <= 1024 && Tiled(b, 0) && Tiled(b, off)
    && Reached(b, 0, off, pre) && Slots(b, 0) == pre + Slots(b, off)
  }

  lemma AtStart(b: Block)
    requires Tiled(b, 0)
    ensures At(b, 0, [])
  {
    assert [] + Slots(b, 0) == Slots(b, 0);
  }

  lemma AtStep(b: Block, off: nat, pre: seq<Slot>)
    requires At(b, off, pre) && off < 1024
    ensures RecordOk(b, off) && 12 <= RecLen(b, off) && off + RecLen(b, off) <= 1024
    ensures At(b, off + RecLen(b, off), pre + [SlotAt(b, off)])
  {
    hide RecordOk, SlotAt, U16, U32, Reached;
    SlotsCons(b, off);
    RecordBounds(b, off);
    ReachedStep(b, 0, off, pre);
    SlotsCons(b, off);
    Assoc(pre, [SlotAt(b, off)], Slots(b, off + RecLen(b, off)));
  }

  /** The record under the walk. */
  lemma AtIndex(b: Block, off: nat, pre: seq<Slot>)
    requires At(b, off, pre)
    ensures forall k :: 0 <= k < |pre| ==> Slots(b, 0)[k] == pre[k]
    ensures off == 1024 || off + 12 <= 1024
    ensures off == 1024 ==> Slots(b, 0) == pre
    ensures off < 1024 ==> RecordOk(b, off)
    ensures off < 1024 ==> |pre| < |Slots(b, 0)| && Slots(b, 0)[|pre|] == SlotAt(b, off)
    ensures off < 1024 ==> Slots(b, 0)[..|pre|] == pre && Slots(b, 0)[|pre| + 1..] == Slots(b, off + RecLen(b, off))
  {
    hide RecordOk, SlotAt, U16, U32, Reached;
    if off < 1024 {
      RecordBounds(b, off);
      SlotsCons(b, off);
      var rest := Slots(b, off + RecLen(b, off));
      assert pre + ([SlotAt(b, off)] + rest) == pre + [SlotAt(b, off)] + rest;
    }
  }

  lemma FirstNamedIs(s: seq<Slot>, name: Name, j: nat)
    requires j <= |s| && (forall k :: 0 <= k < j ==> !IsNamed(s[k], name))
    requires j < |s| ==> IsNamed(s[j], name)
    ensures FirstNamed(s, name) == j
  {
  }

  lemma FirstFitIs(s: seq<Slot>, needed: nat, j: nat)
    requires j <= |s| && (forall k :: 0 <= k < j ==> !Fits(s[k], needed))
    requires j < |s| ==> Fits(s[j], needed)
    ensures FirstFit(s, needed) == j
  {
  }

  /** The name comparison of every scan (fs/ext2/dir.c:63-64, 319-320). */
  predicate Matches(b: Block, off: nat, name: Name)
    requires RecordOk(b, off)
    ensures Matches(b, off, name) == IsNamed(SlotAt(b, off), name)
  {
    Ino(b, off) != 0 && NameLen(b, off) == |name| && b[off + 8..off + 8 + NameLen(b, off)] == name
  }

  /** fs/ext2/dir.c:47-73 */
  method LookupInBlock(b: Block, name: Name) returns (ino: nat)
    requires Tiled(b, 0)
    ensures var s := Slots(b, 0); var j := FirstNamed(s, name);
            ino == if j < |s| then s[j].ino else 0
  {
    hide At, Tiled, Reached, Slots, FirstNamed, RecordOk, Matches;
    var off: nat := 0;
    ghost var pre: seq<Slot> := [];
    AtStart(b);
    while off + HEADER <= 1024
      invariant At(b, off, pre)
      invariant forall k :: 0 <= k < |pre| ==> !IsNamed(pre[k], name)
      decreases 1024 - off
    {
      AtStep(b, off, pre);
      AtIndex(b, off, pre);
      if Matches(b, off, name) {
        FirstNamedIs(Slots(b, 0), name, |pre|);
        return Ino(b, off);
      }
      pre := pre + [SlotAt(b, off)];
      off := off + RecLen(b, off);
    }
    AtIndex(b, off, pre);
    FirstNamedIs(Slots(b, 0), name, |pre|);
    return 0;
  }

  /** A record takes the name if it is free and long enough, or has enough slack. */
  lemma FitsHere(b: Block, off: nat, name: Name, ino: nat)
    requires RecordOk(b, off) && 1 <= |name| <= 255 && 0 < ino < 0x1_0000_0000
    ensures RecLen(b, off) > 0
    ensures Ino(b, off) == 0 ==> (Fits(SlotAt(b, off), Needed(name)) <==> RecLen(b, off) >= Needed(name))
    ensures Ino(b, off) != 0 ==>
              var slack := RecLen(b, off) - Align4(HEADER + NameLen(b, off));
              && (Fits(SlotAt(b, off), Needed(name)) <==> slack >= Needed(name))
              && (slack >= Needed(name) ==> CanSplit(b, off, name, ino))
  {
    hide U16, U32;
  }

  /** The inner loop of fs/ext2/dir.c:232-266: first fit over free records and slack. */
  method PlaceInBlock(b: Block, name: Name, ino: nat, ft: byte) returns (placed: bool, c: Block)
    requires Tiled(b, 0)
    requires 1 <= |name| <= 255 && 0 < ino < 0x1_0000_0000
    ensures var s := Slots(b, 0); var j := FirstFit(s, Needed(name));
            && placed == (j < |s|)
            && (!placed ==> c == b)
            && (placed ==> Tiled(c, 0) && Slots(c, 0) == PlaceAt(s, j, name, ino, ft))
  {
    hide At, Tiled, Reached, Slots, FirstFit, Split, Reuse, PlaceAt, RecordOk, CanSplit, Fits, SlotAt, Align4, Ino,
         RecLen, NameLen;
    var needed := Needed(name);
    var off: nat := 0;
    ghost var pre: seq<Slot> := [];
    AtStart(b);
    while off + HEADER <= 1024
      invariant At(b, off, pre)
      invariant forall k :: 0 <= k < |pre| ==> !Fits(pre[k], needed)
      decreases 1024 - off
    {
      AtStep(b, off, pre);
      AtIndex(b, off, pre);
      FitsHere(b, off, name, ino);
      if Ino(b, off) == 0 {
        if RecLen(b, off) >= needed {
          c := Reuse(b, off, name, ino, ft);
          FirstFitIs(Slots(b, 0), needed, |pre|);
          ReusePlaces(b, off, pre, name, ino, ft);
          return true, c;
        }
      } else {
        var actual := Align4(HEADER + NameLen(b, off));
        var slack := RecLen(b, off) - actual;
        if slack >= needed {
          c := Split(b, off, name, ino, ft);
          FirstFitIs(Slots(b, 0), needed, |pre|);
          SplitPlaces(b, off, pre, name, ino, ft);
          return true, c;
        }
      }
      pre := pre + [SlotAt(b, off)];
      off := off + RecLen(b, off);
    }
    AtIndex(b, off, pre);
    FirstFitIs(Slots(b, 0), needed, |pre|);
    return false, b;
  }

  lemma ReusePlaces(b: Block, off: nat, pre: seq<Slot>, name: Name, ino: nat, ft: byte)
    requires At(b, off, pre) && off < 1024 && RecordOk(b, off) && Ino(b, off) == 0 && Needed(name) <= RecLen(b, off)
    requires 1 <= |name| <= 255 && 0 < ino < 0x1_0000_0000
    ensures var c, s := Reuse(b, off, name, ino, ft), Slots(b, 0);
            Tiled(c, 0) && |pre| < |s| && Fits(s[|pre|], Needed(name))
              && Slots(c, 0) == PlaceAt(s, |pre|, name, ino, ft)
  {
    hide U16, U32, Reached, Tiled, Slots, Reuse;
    var c := Reuse(b, off, name, ino, ft);
    ReuseReads(b, off, name, ino, ft);
    ReachedOne(c, off);
    AtStep(b, off, pre);
    AtIndex(b, off, pre);
    Splice(b, c, off, RecLen(b, off), pre, [SlotAt(c, off)]);
  }

  lemma SplitPlaces(b: Block, off: nat, pre: seq<Slot>, name: Name, ino: nat, ft: byte)
    requires At(b, off, pre) && off < 1024 && CanSplit(b, off, name, ino)
    ensures var c, s := Split(b, off, name, ino, ft), Slots(b, 0);
            Tiled(c, 0) && |pre| < |s| && Fits(s[|pre|], Needed(name))
              && Slots(c, 0) == PlaceAt(s, |pre|, name, ino, ft)
  {
    hide U16, U32, Reached, Tiled, Slots, Split;
    var c := Split(b, off, name, ino, ft);
    SplitReads(b, off, name, ino, ft);
    SplitOutside(b, off, name, ino, ft);
    AtStep(b, off, pre);
    AtIndex(b, off, pre);
    Splice(b, c, off, RecLen(b, off), pre, Placed(SlotAt(b, off), name, ino, ft));
  }

  /** The loop of fs/ext2/dir.c:313-333: a matching record is absorbed by its predecessor, or freed if first. */
  method RemoveFromBlock(b: Block, name: Name) returns (found: bool, c: Block)
    requires Tiled(b, 0)
    ensures var s := Slots(b, 0); var j := FirstNamed(s, name);
            && found == (j < |s|)
            && (!found ==> c == b)
            && (found ==> Tiled(c, 0) && Slots(c, 0) == RemoveAt(s, j))
  {
    hide At, Tiled, Reached, Slots, FirstNamed, RecordOk, SlotAt, Matches, Merge, Put, U16, U32, IsNamed, RemoveAt;
    var off: nat := 0;
    var prev: int := -1;
    ghost var pre: seq<Slot> := [];
    AtStart(b);
    while off + HEADER <= 1024
      invariant At(b, off, pre)
      invariant forall k :: 0 <= k < |pre| ==> !IsNamed(pre[k], name)
      invariant prev == -1 <==> pre == []
      invariant prev != -1 ==>
                  0 <= prev && prev + 12 <= 1024 && At(b, prev, pre[..|pre| - 1]) && RecordOk(b, prev)
                  && prev + RecLen(b, prev) == off
      invariant prev == -1 ==> off == 0
      decreases 1024 - off
    {
      AtStep(b, off, pre);
      AtIndex(b, off, pre);
      if Matches(b, off, name) {
        FirstNamedIs(Slots(b, 0), name, |pre|);
        if prev != -1 {
          c := Merge(b, prev, off);
          MergeRemoves(b, prev, off, pre[..|pre| - 1]);
        } else {
          c := Put(b, off, Enc32(0));
          FreeRemoves(b);
        }
        return true, c;
      }
      prev := off;
      assert (pre + [SlotAt(b, off)])[..|pre|] == pre;
      pre := pre + [SlotAt(b, off)];
      off := off + RecLen(b, off);
    }
    AtIndex(b, off, pre);
    FirstNamedIs(Slots(b, 0), name, |pre|);
    return false, b;
  }

  /** fs/ext2/dir.c:322-323 */
  function Merge(b: Block, prev: nat, off: nat): Block
    requires RecordOk(b, prev) && RecordOk(b, off) && prev + RecLen(b, prev) == off
  {
    Put(b, prev + 4, Enc16(RecLen(b, prev) + RecLen(b, off)))
  }

  lemma MergeReads(b: Block, prev: nat, off: nat)
    requires RecordOk(b, prev) && RecordOk(b, off) && prev + RecLen(b, prev) == off
    ensures var c, len := Merge(b, prev, off), RecLen(b, prev) + RecLen(b, off);
            RecordOk(c, prev) && RecLen(c, prev) == len && SlotAt(c, prev) == SlotAt(b, prev).(len := len)
            && SameOutside(b, c, prev, prev + len)
  {
    hide U16, U32, Put, Enc16;
    RecordBounds(b, prev);
    RecordBounds(b, off);
    var len := RecLen(b, prev) + RecLen(b, off);
    ResizeReads(b, prev, len);
    PutOutside(b, prev + 4, Enc16(len), 0, prev);
    PutOutside(b, prev + 4, Enc16(len), prev + len, 1024);
  }

  lemma MergeRemoves(b: Block, prev: nat, off: nat, pre: seq<Slot>)
    requires At(b, prev, pre) && prev < 1024 && RecordOk(b, prev) && RecordOk(b, off) && prev + RecLen(b, prev) == off
    ensures Removes(b, Merge(b, prev, off), |pre| + 1)
  {
    hide U16, U32, Reached, Tiled, Slots, Merge, RecordOk, SlotAt;
    RecordBounds(b, prev);
    RecordBounds(b, off);
    var c := Merge(b, prev, off);
    MergeReads(b, prev, off);
    AtStep(b, prev, pre);
    var more := pre + [SlotAt(b, prev)];
    AtStep(b, off, more);
    AtIndex(b, prev, pre);
    AtIndex(b, off, more);
    ReachedOne(c, prev);
    Splice(b, c, prev, RecLen(b, prev) + RecLen(b, off), pre, [SlotAt(c, prev)]);
  }

  /** Block c is block b without record j. */
  ghost predicate Removes(b: Block, c: Block, j: nat) {
    Tiled(b, 0) && Tiled(c, 0) && j < |Slots(b, 0)| && Slots(c, 0) == RemoveAt(Slots(b, 0), j)
  }

  lemma FreeRemoves(b: Block)
    requires Tiled(b, 0) && RecordOk(b, 0)
    ensures Removes(b, Put(b, 0, Enc32(0)), 0)
  {
    hide U16, U32, Reached, Tiled, Slots, Put, RecordOk, SlotAt;
    RecordBounds(b, 0);
    var c := Put(b, 0, Enc32(0));
    RenumberReads(b, 0, 0);
    AtStart(b);
    AtStep(b, 0, []);
    AtIndex(b, 0, []);
    var n := RecLen(b, 0);
    PutOutside(b, 0, Enc32(0), n, 1024);
    ReachedOne(c, 0);
    Splice(b, c, 0, n, [], [SlotAt(c, 0)]);
  }

  const DOT: Name := [46]
  const DOTDOT: Name := [46, 46]

  predicate OnlyDots(e: seq<Entry>) {
    forall k :: 0 <= k < |e| ==> e[k].name in {DOT, DOTDOT}
  }

  lemma OnlyDotsNone()
    ensures OnlyDots(Live([]))
  {
  }

  lemma OnlyDotsConcat(a: seq<Entry>, b: seq<Entry>)
    ensures OnlyDots(a + b) <==> OnlyDots(a) && OnlyDots(b)
  {
    var s := a + b;
    assert forall k :: 0 <= k < |a| ==> s[k] == a[k];
    assert forall k :: 0 <= k < |b| ==> s[|a| + k] == b[k];
  }

  /** fs/ext2/dir.c:355-360 */
  predicate OtherName(b: Block, off: nat)
    requires RecordOk(b, off)
  {
    && Ino(b, off) != 0
    && !(NameLen(b, off) == 1 && b[off + 8] == 46)
    && !(NameLen(b, off) == 2 && b[off + 8] == 46 && b[off + 9] == 46)
  }

  lemma OtherNameIs(b: Block, off: nat)
    requires RecordOk(b, off)
    ensures OtherName(b, off) == !OnlyDots(LiveOf(SlotAt(b, off)))
  {
    hide U16, U32;
    RecordBounds(b, off);
    if Ino(b, off) != 0 {
      var n := b[off + 8..off + 8 + NameLen(b, off)];
      assert LiveOf(SlotAt(b, off)) == [Entry(n, Ino(b, off))];
      var one := [Entry(n, Ino(b, off))];
      assert OnlyDots(one) <==> one[0].name in {DOT, DOTDOT};
      assert n == DOT <==> |n| == 1 && n[0] == 46;
      assert n == DOTDOT <==> |n| == 2 && n[0] == 46 && n[1] == 46;
    }
  }

  /** fs/ext2/dir.c:351-362: no live record but "." and "..". */
  method OnlyDotsInBlock(b: Block) returns (only: bool)
    requires Tiled(b, 0)
    ensures only <==> OnlyDots(Live(Slots(b, 0)))
  {
    hide At, Tiled, Reached, Slots, RecordOk, SlotAt, Live, OtherName, OnlyDots;
    var off: nat := 0;
    ghost var pre: seq<Slot> := [];
    AtStart(b);
    OnlyDotsNone();
    while off + HEADER <= 1024
      invariant At(b, off, pre)
      invariant OnlyDots(Live(pre))
      decreases 1024 - off
    {
      AtStep(b, off, pre);
      AtIndex(b, off, pre);
      LiveConcat(pre, [SlotAt(b, off)]);
      LiveSingle(SlotAt(b, off));
      OtherNameIs(b, off);
      OnlyDotsConcat(Live(pre), LiveOf(SlotAt(b, off)));
      if OtherName(b, off) {
        LiveCut(Slots(b, 0), |pre|);
        OnlyDotsConcat(Live(pre) + LiveOf(SlotAt(b, off)), Live(Slots(b, 0)[|pre| + 1..]));
        return false;
      }
      pre := pre + [SlotAt(b, off)];
      off := off + RecLen(b, off);
    }
    AtIndex(b, off, pre);
    return true;
  }

  /** fs/ext2/dir.c:382-394: repoint the ".." record. */
  method SetParentInBlock(b: Block, parent: nat) returns (found: bool, c: Block)
    requires Tiled(b, 0) && 0 < parent < 0x1_0000_0000
    ensures var s := Slots(b, 0); var j := FirstNamed(s, DOTDOT);
            && found == (j < |s|)
            && (!found ==> c == b)
            && (found ==> Tiled(c, 0) && Slots(c, 0) == s[j := s[j].(ino := parent)])
  {
    hide At, Tiled, Reached, Slots, FirstNamed, RecordOk, SlotAt, Matches, Put, U16, U32, IsNamed;
    var off: nat := 0;
    ghost var pre: seq<Slot> := [];
    AtStart(b);
    while off + HEADER <= 1024
      invariant At(b, off, pre)
      invariant forall k :: 0 <= k < |pre| ==> !IsNamed(pre[k], DOTDOT)
      decreases 1024 - off
    {
      AtStep(b, off, pre);
      AtIndex(b, off, pre);
      if Matches(b, off, DOTDOT) {
        FirstNamedIs(Slots(b, 0), DOTDOT, |pre|);
        c := Put(b, off, Enc32(parent));
        RepointReads(b, off, pre, parent);
        return true, c;
      }
      pre := pre + [SlotAt(b, off)];
      off := off + RecLen(b, off);
    }
    AtIndex(b, off, pre);
    FirstNamedIs(Slots(b, 0), DOTDOT, |pre|);
    return false, b;
  }

  /** Block c is block b with record j naming inode `ino`. */
  ghost predicate Repoints(b: Block, c: Block, j: nat, ino: nat) {
    Tiled(b, 0) && Tiled(c, 0) && j < |Slots(b, 0)| && Slots(c, 0) == Slots(b, 0)[j := Slots(b, 0)[j].(ino := ino)]
  }

  lemma RepointReads(b: Block, off: nat, pre: seq<Slot>, parent: nat)
    requires At(b, off, pre) && off < 1024 && RecordOk(b, off) && IsNamed(SlotAt(b, off), DOTDOT)
    requires 0 < parent < 0x1_0000_0000
    ensures Repoints(b, Put(b, off, Enc32(parent)), |pre|, parent)
  {
    hide U16, U32, Reached, Tiled, Slots, Put, RecordOk;
    RecordBounds(b, off);
    var c, n := Put(b, off, Enc32(parent)), RecLen(b, off);
    RenumberReads(b, off, parent);
    AtStep(b, off, pre);
    AtIndex(b, off, pre);
    PutOutside(b, off, Enc32(parent), 0, off);
    PutOutside(b, off, Enc32(parent), off + n, 1024);
    ReachedOne(c, off);
    Splice(b, c, off, n, pre, [SlotAt(c, off)]);
    var s := Slots(b, 0);
    Update(s, |pre|, SlotAt(c, off));
  }

  lemma Update<T>(s: seq<T>, j: nat, x: T)
    requires j < |s|
    ensures s[j := x] == s[..j] + [x] + s[j + 1..]
  {
  }

  // ---- freshly built blocks ----

  /** A grown directory block: one record spanning it (fs/ext2/dir.c:280-287). */
  function SoloBlock(name: Name, ino: nat, ft: byte): Block
    requires 0 < ino < 0x1_0000_0000 && 1 <= |name| <= 255
  {
    Put(ZERO_BLOCK, 0, RecordBytes(ino, 1024, name, ft))
  }

  lemma SoloReads(name: Name, ino: nat, ft: byte)
    requires 0 < ino < 0x1_0000_0000 && 1 <= |name| <= 255
    ensures var b := SoloBlock(name, ino, ft); Tiled(b, 0) && Slots(b, 0) == [Slot(ino, 1024, name, ft)]
  {
    hide U16, U32, Put, RecordBytes, SlotAt, RecordOk;
    var b := SoloBlock(name, ino, ft);
    PutSlice(ZERO_BLOCK, 0, RecordBytes(ino, 1024, name, ft));
    RecordReads(b, 0, ino, 1024, name, ft);
    assert Slots(b, 1024) == [];
    SlotsCons(b, 0);
  }

  /** The first block of a new directory (fs/ext2/write.c:119-135). */
  function DotsBlock(self: nat, parent: nat): Block
    requires 0 < self < 0x1_0000_0000 && 0 < parent < 0x1_0000_0000
  {
    Put(Put(ZERO_BLOCK, 0, RecordBytes(self, 12, DOT, 2)), 12, RecordBytes(parent, 1012, DOTDOT, 2))
  }

  lemma DotsReads(self: nat, parent: nat)
    requires 0 < self < 0x1_0000_0000 && 0 < parent < 0x1_0000_0000
    ensures var b := DotsBlock(self, parent);
            Tiled(b, 0) && Slots(b, 0) == [Slot(self, 12, DOT, 2), Slot(parent, 1012, DOTDOT, 2)]
  {
    hide U16, U32, Put, RecordBytes, SlotAt, RecordOk;
    var first := Put(ZERO_BLOCK, 0, RecordBytes(self, 12, DOT, 2));
    var b := DotsBlock(self, parent);
    PutSlice(ZERO_BLOCK, 0, RecordBytes(self, 12, DOT, 2));
    PutOutside(first, 12, RecordBytes(parent, 1012, DOTDOT, 2), 0, 9);
    RecordReads(b, 0, self, 12, DOT, 2);
    PutSlice(first, 12, RecordBytes(parent, 1012, DOTDOT, 2));
    RecordReads(b, 12, parent, 1012, DOTDOT, 2);
    assert Tiled(b, 1024);
    assert Tiled(b, 12);
    SlotsCons(b, 12);
    SlotsCons(b, 0);
  }
}
