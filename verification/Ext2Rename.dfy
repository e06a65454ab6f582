/**
 * ext2_link and ext2_rename (fs/ext2/write.c:217-320): a second name for a file,
 * and moving a name, possibly over an existing one.
 */
module Ext2Rename {
  import opened Bytes
  import opened Ext2Refs
  import opened Ext2Volume
  import opened Ext2Sound
  import opened Ext2Blocks
  import opened Ext2DirBlock
  import opened Ext2DirScan
  import opened Ext2Dir
  import opened Ext2Tree
  import opened Ext2Names
  import opened Ext2Write
  import opened Ext2Unlink

  /** What holds between the writes of one operation: everything but the link counts. */
  ghost predicate Between(v: Vol, meta: set<nat>, first: nat) {
    Fs(v, meta, first) && Tidy(v) && Shapely(v)
  }

  lemma IntactBetween(v: Vol, meta: set<nat>, first: nat)
    requires Intact(v, meta, first)
    ensures Between(v, meta, first) && Linked(TreeOf(v))
  {
    hide Tidy, Linked, Sound, DirShape;
  }

  lemma LinkedIntact(v: Vol, meta: set<nat>, first: nat)
    requires Between(v, meta, first) && Linked(TreeOf(v))
    ensures Intact(v, meta, first)
  {
    hide Tidy, Linked, Sound, DirShape;
  }

  /** One directory changed its map. */
  lemma DirStep(v: Vol, x: Vol, meta: set<nat>, first: nat, d: nat, m: map<Name, nat>)
    requires Between(v, meta, first) && DirChanged(v, x, meta, first, d, m) && IsDir(v.inodes[d])
    ensures Between(x, meta, first) && KeepsOthers(v, x, d) && |x.inodes| == |v.inodes| && x.iused == v.iused
    ensures d in TreeOf(v).names && TreeOf(v).names[d] == Names(v, d)
            && TreeOf(x) == TreeOf(v).(names := TreeOf(v).names[d := m])
  {
    hide Sound, DirShape, Names;
    TreeDirChanged(v, x, meta, first, d, m);
    assert TidyAt(v, d);
    assert v.inodes[d] != ZERO_INODE by { ZeroRefs(v.blocks); }
    TidyKept(v, x, d);
  }

  /** One link count changed. */
  lemma LinksStep(x: Vol, meta: set<nat>, first: nat, i: nat, count: nat)
    requires Between(x, meta, first) && i < |x.inodes| && KindOf(x.inodes[i]) != Free && count < 0x1_0000
    ensures var y := x.(inodes := x.inodes[i := x.inodes[i].(links := count)]);
            && Between(y, meta, first) && KeepsOthers(x, y, i)
            && TreeOf(y) == TreeOf(x).(links := TreeOf(x).links[i := count])
  {
    hide Fs, Shapely, KeepsOthers, Names;
    CountStep(x, meta, first, i, count);
    ZeroRefs(x.blocks);
    CountTidy(x, x.(inodes := x.inodes[i := x.inodes[i].(links := count)]), i);
  }

  // ---- link ----

  /** The volume ext2_link leaves, x being the volume once the new entry is in. */
  ghost function Counted(x: Vol, i: nat): Vol
    requires i < |x.inodes|
  {
    x.(inodes := x.inodes[i := x.inodes[i].(links := Wrap16(x.inodes[i].links + 1))])
  }

  /** A second name for file i: one more binding, one more link, if the 16-bit count has room. */
  ghost predicate NameAdded(v: Vol, w: Vol, meta: set<nat>, first: nat, d: nat, leaf: Name, i: nat) {
    && Shapely(v) && Shapely(w) && d in TreeOf(v).names && leaf !in TreeOf(v).names[d]
    && i < |v.inodes| && i < |TreeOf(v).links| && KeepsAllBut(v, w, {d, i})
    && w.inodes[i] == v.inodes[i].(links := w.inodes[i].links)
    && SameRefs(v.inodes[i], v.blocks, w.blocks) && Body(v.inodes[i], w.blocks) == Body(v.inodes[i], v.blocks)
    && (v.inodes[i].links < 0xFFFF ==> Intact(w, meta, first) && TreeOf(w) == LinkAdded(TreeOf(v), d, leaf, i))
    && (v.inodes[i].links == 0xFFFF ==> !Intact(w, meta, first))
  }

  lemma CountedStep(v: Vol, x: Vol, meta: set<nat>, first: nat, d: nat, leaf: Name, i: nat)
    requires Intact(v, meta, first) && Shapely(v) && i < |v.inodes| && KindOf(v.inodes[i]) == Other && Proper(leaf)
    requires d < |v.inodes| && IsDir(v.inodes[d]) && DirShape(v.inodes[d], v.blocks) && leaf !in Names(v, d)
    requires DirChanged(v, x, meta, first, d, Names(v, d)[leaf := i])
    ensures i < |x.inodes| && x.inodes[i] == v.inodes[i] && v.inodes[i].links < 0x1_0000
    ensures NameAdded(v, Counted(x, i), meta, first, d, leaf, i) && Fs(Counted(x, i), meta, first)
  {
    hide DirShape, Names, Intact, Linked, LinkAdded, Body, KeepsOthers, DirChanged;
    IntactBetween(v, meta, first);
    DirStep(v, x, meta, first, d, Names(v, d)[leaf := i]);
    assert KeepsInode(v, x, i) by { assert i != d; KeepsAt(v, x, d, i); }
    assert TidyAt(v, i);
    LinksStep(x, meta, first, i, Wrap16(x.inodes[i].links + 1));
    var w := Counted(x, i);
    CountedTree(TreeOf(v), TreeOf(x), TreeOf(w), d, leaf, i);
    KeepsOne(v, x, d);
    KeepsChain(v, x, w, {d}, i);
    assert {d} + {i} == {d, i};
    assert TreeOf(v).links[i] == v.inodes[i].links;
    if v.inodes[i].links < 0xFFFF {
      LinkedIntact(w, meta, first);
    } else {
      NotIntact(w, meta, first);
    }
  }

  lemma KeepsAt(v: Vol, w: Vol, d: nat, i: nat)
    requires KeepsOthers(v, w, d) && i < |v.inodes| && i != d
    ensures |w.inodes| == |v.inodes| && KeepsInode(v, w, i)
  {
    hide Body;
  }

  lemma NotIntact(w: Vol, meta: set<nat>, first: nat)
    requires Shapely(w) && !Linked(TreeOf(w))
    ensures !Intact(w, meta, first)
  {
    hide Fs, Tidy, Linked, Shapely;
  }

  /** With the count at 65535 the new count is 0, though the file has names. */
  lemma CountedTree(t: Tree, x: Tree, w: Tree, d: nat, leaf: Name, i: nat)
    requires Linked(t) && d in t.names && leaf !in t.names[d] && Proper(leaf) && i < |t.kinds| && t.kinds[i] == Other
             && t.links[i] < 0x1_0000
    requires x == Bind(t, d, leaf, i) && w == x.(links := x.links[i := Wrap16(t.links[i] + 1)])
    ensures t.links[i] < 0xFFFF ==> w == LinkAdded(t, d, leaf, i) && Linked(w)
    ensures t.links[i] == 0xFFFF ==> !Linked(w)
  {
    hide Wired, CountOk;
    if t.links[i] < 0xFFFF {
      assert w == LinkAdded(t, d, leaf, i);
      LinkAddedLinked(t, d, leaf, i);
    } else {
      WrappedCount(w, d, leaf, i);
    }
  }

  lemma WrappedCount(w: Tree, d: nat, leaf: Name, i: nat)
    requires HasEntry(w, d, leaf) && w.names[d][leaf] == i < |w.kinds| == |w.links| && w.kinds[i] == Other
             && w.links[i] == 0
    ensures !Linked(w)
  {
    assert (d, leaf) in Entries(w, i);
    assert Linked(w) ==> CountOk(w, i);
  }

  /** Which error ext2_link reports before it tries to insert (fs/ext2/write.c:298-312). */
  ghost function LinkCode(t: Tree, p: Path, q: Path): Errno {
    match Walk(t, ROOT, p)
    case Nowhere => ENOENT
    case At(i) =>
      if i in t.names then EPERM
      else if ParentOf(t, q) == Nowhere then ENOENT
      else if Target(t, q).At? then EEXIST
      else Ok
  }

  ghost predicate LinkMade(t: Tree, v: Vol, w: Vol, meta: set<nat>, first: nat, p: Path, q: Path) {
    && Walk(t, ROOT, p).At? && ParentOf(t, q).At?
    && NameAdded(v, w, meta, first, ParentOf(t, q).ino, Leaf(q), Walk(t, ROOT, p).ino)
  }

  /** The parent directory of a path can take its last component. */
  ghost predicate FitsAt(t: Tree, v: Vol, geo: Geometry, books: Ledger, p: Path) {
    ParentOf(t, p).At? && Takes(v, ParentOf(t, p).ino, Leaf(p), BlocksLeft(geo, books, v.used))
  }

  /** ext2_link (fs/ext2/write.c:294-320) */
  method Link(vol: Volume, p: Path, q: Path) returns (rc: Errno)
    requires Mounted(vol) && PathOk(p) && Canonical(q)
    modifies vol
    ensures Ready(vol) && vol.Books() == old(vol.Books())
    ensures LinkCode(old(Namespace(vol)), p, q) != Ok ==>
              rc == LinkCode(old(Namespace(vol)), p, q) && vol.View() == old(vol.View())
    ensures LinkCode(old(Namespace(vol)), p, q) == Ok ==>
              || (rc == Ok && LinkMade(old(Namespace(vol)), old(vol.View()), vol.View(), vol.meta, vol.geo.first, p, q))
              || (rc == ENOSPC && OnlyLeaked(old(vol.View()), vol.View(), vol.meta, vol.geo.first))
    ensures LinkCode(old(Namespace(vol)), p, q) == Ok ==>
              (rc == Ok <==> FitsAt(old(Namespace(vol)), old(vol.View()), vol.geo, vol.Books(), q))
  {
    hide Items, Intact, Walk, Names, DirShape, NameAdded, OnlyLeaked, KeepsOthers, DirChanged, BlocksLeft, Takes;
    MountedIsReady(vol);
    var okOld, i := PathToInode(vol, p);
    if !okOld {
      return ENOENT;
    }
    WalkKind(vol, p);
    var read, n := vol.ReadInode(i);
    if IsDir(n) {
      return EPERM;
    }
    if !Splits(q) {
      return ENOENT;
    }
    var ok, d := PathToInode(vol, Parent(q));
    if !ok {
      return ENOENT;
    }
    WalkByParent(Namespace(vol), q);
    var exists_, e := DirLookup(vol, d, Leaf(q));
    LookupIsStep(vol, d, Leaf(q));
    if exists_ {
      return EEXIST;
    }
    rc := LinkInto(vol, d, Leaf(q), i);
  }

  /** fs/ext2/write.c:314-319 */
  method LinkInto(vol: Volume, d: nat, leaf: Name, i: nat) returns (rc: Errno)
    requires Mounted(vol) && 1 <= d <= vol.geo.inodes && 1 <= i <= vol.geo.inodes && 1 <= |leaf| <= 255 && Proper(leaf)
    requires KindOf(vol.inodes[i]) == Other
    requires d in Namespace(vol).names ==> leaf !in Namespace(vol).names[d]
    modifies vol
    ensures Ready(vol) && vol.Books() == old(vol.Books())
    ensures || (rc == Ok && NameAdded(old(vol.View()), vol.View(), vol.meta, vol.geo.first, d, leaf, i))
            || (rc == ENOSPC && OnlyLeaked(old(vol.View()), vol.View(), vol.meta, vol.geo.first))
    ensures rc == Ok <==> Takes(old(vol.View()), d, leaf, BlocksLeft(vol.geo, vol.Books(), old(vol.View()).used))
  {
    hide Items, Intact, Names, DirShape, NameAdded, OnlyLeaked, KeepsOthers, DirChanged, SuperDrift, Drifts, Shapely,
         BlocksLeft, Takes;
    ghost var v, meta, first := vol.View(), vol.meta, vol.geo.first;
    MountedIsReady(vol);
    FsShapely(v, meta, first);
    LookupIsStep(vol, d, leaf);
    var read, n := vol.ReadInode(i);
    var placed := DirInsert(vol, d, leaf, i, if IsLnk(n) then 7 else 1);
    if !placed {
      return ENOSPC;
    }
    ghost var x := vol.View();
    CountedStep(v, x, meta, first, d, leaf, i);
    var stored := vol.WriteInode(i, n.(links := Wrap16(n.links + 1)));
    assert vol.View() == Counted(x, i);
    return Ok;
  }

  lemma WalkKind(vol: Volume, p: Path)
    requires Mounted(vol)
    ensures var f := Walk(Namespace(vol), ROOT, p);
            f.At? ==>
              && 1 <= f.ino <= vol.geo.inodes && KindOf(vol.inodes[f.ino]) != Free
              && (f.ino in Namespace(vol).names <==> IsDir(vol.inodes[f.ino]))
  {
    hide Sound, Tidy, Linked, DirShape, Names, Walk;
    var t := Namespace(vol);
    RootLive(vol);
    WalkLive(t, ROOT, p);
    if Walk(t, ROOT, p).At? {
      NotZero(vol, Walk(t, ROOT, p).ino);
    }
  }

  // ---- rename: moving a name ----

  /** The entry is at its new place and no longer at its old one. */
  ghost predicate Shifted(v: Vol, w: Vol, meta: set<nat>, first: nat, od: nat, on: Name, nd: nat, nn: Name, i: nat) {
    && Shapely(v) && Between(w, meta, first) && od in TreeOf(v).names && nd in TreeOf(v).names
    && TreeOf(w) == Unbind(Bind(TreeOf(v), nd, nn, i), od, on)
    && KeepsAllBut(v, w, {od, nd})
  }

  /** od names i as on, and nd is another place to name it. */
  ghost predicate CanMove(v: Vol, meta: set<nat>, first: nat, od: nat, on: Name, nd: nat, nn: Name, i: nat) {
    && Holds(v, meta, first, od, on, i) && nd < |v.inodes| && Proper(nn)
    && (nd in TreeOf(v).names ==> nn !in TreeOf(v).names[nd])
  }

  lemma ShiftStep(v: Vol, x: Vol, w: Vol, meta: set<nat>, first: nat, od: nat, on: Name, nd: nat, nn: Name, i: nat)
    requires CanMove(v, meta, first, od, on, nd, nn, i)
    requires IsDir(v.inodes[nd]) && DirShape(v.inodes[nd], v.blocks)
             && DirChanged(v, x, meta, first, nd, Names(v, nd)[nn := i])
    requires od < |x.inodes| && IsDir(x.inodes[od]) && DirShape(x.inodes[od], x.blocks)
             && DirChanged(x, w, meta, first, od, Names(x, od) - {on})
    ensures Shifted(v, w, meta, first, od, on, nd, nn, i)
  {
    hide DirShape, Names, Intact, Linked, KeepsOthers, DirChanged, Fs, Tidy;
    IntactBetween(v, meta, first);
    DirStep(v, x, meta, first, nd, Names(v, nd)[nn := i]);
    DirStep(x, w, meta, first, od, Names(x, od) - {on});
    KeepsOne(v, x, nd);
    KeepsChain(v, x, w, {nd}, od);
    assert {nd} + {od} == {od, nd};
  }

  /** After the insertion the old entry is still there to remove. */
  lemma StillHeld(v: Vol, x: Vol, meta: set<nat>, first: nat, od: nat, on: Name, nd: nat, nn: Name, i: nat)
    requires CanMove(v, meta, first, od, on, nd, nn, i)
    requires IsDir(v.inodes[nd]) && DirShape(v.inodes[nd], v.blocks)
             && DirChanged(v, x, meta, first, nd, Names(v, nd)[nn := i])
    ensures Fs(x, meta, first) && 0 < od < |x.inodes| && IsDir(x.inodes[od]) && DirShape(x.inodes[od], x.blocks)
            && on in Names(x, od)
  {
    hide DirShape, Names, Intact, Linked, DirChanged, Tidy, KeepsOthers, Sound;
    IntactBetween(v, meta, first);
    HoldsKinds(v, meta, first, od, on, i);
    DirStep(v, x, meta, first, nd, Names(v, nd)[nn := i]);
    assert TreeOf(x).kinds == TreeOf(v).kinds;
    assert KindOf(x.inodes[od]) == TreeOf(x).kinds[od];
    assert KindOf(v.inodes[od]) == TreeOf(v).kinds[od];
    assert TreeOf(x).names[od] == Names(x, od);
  }

  /** Every inode refers to the blocks it did. */
  ghost predicate SameUse(v: Vol, w: Vol) {
    && |w.inodes| == |v.inodes| && |w.blocks| == |v.blocks|
    && forall j: nat, s: nat :: j < |v.inodes| && s < SLOTS ==>
         Ref(w.inodes[j], w.blocks, s) == Ref(v.inodes[j], v.blocks, s)
  }

  lemma EditedUse(v: Vol, x: Vol, meta: set<nat>, first: nat, d: nat)
    requires Sound(v, meta, first) && OneBlockEdited(v, x, d)
    ensures SameUse(v, x)
  {
    hide Ref, Sound, Body;
    var k: nat, c: Block :| EditedAt(v, x, d, k, c);
    DataStep(v, meta, first, d, k, c);
    forall j: nat, s: nat | j < |v.inodes| && s < SLOTS
      ensures Ref(x.inodes[j], x.blocks, s) == Ref(v.inodes[j], v.blocks, s)
    {
      if j != d {
        assert KeepsInode(v, x, j);
      }
    }
  }

  lemma UseChain(u: Vol, v: Vol, w: Vol)
    requires SameUse(u, v) && SameUse(v, w)
    ensures SameUse(u, w)
  {
    hide Ref;
  }

  /**
   * fs/ext2/write.c:272-275: the new entry first, so that running out of space loses nothing.
   * With blocks lost before, the directory must have room as it is.
   */
  method Shift(vol: Volume, ghost lost: iset<nat>, od: nat, on: Name, nd: nat, nn: Name, i: nat, ft: byte)
    returns (ok: bool)
    requires vol.Valid() && CanMove(Restored(vol.View(), lost), vol.meta, vol.geo.first, od, on, nd, nn, i) && nd > 0
             && 1 <= |nn| <= 255 && |on| <= 255
    requires lost != iset{} ==> Roomy(Restored(vol.View(), lost), nd, |nn|)
    modifies vol
    ensures vol.Valid() && vol.Books() == old(vol.Books())
    ensures ok ==>
              Shifted(old(Restored(vol.View(), lost)), Restored(vol.View(), lost), vol.meta, vol.geo.first, od, on, nd,
              nn, i)
    ensures !ok ==> OnlyLeaked(old(Restored(vol.View(), lost)), Restored(vol.View(), lost), vol.meta, vol.geo.first)
    ensures old(Roomy(Restored(vol.View(), lost), nd, |nn|)) ==>
              && ok && vol.View().used == old(vol.View()).used
              && SameUse(old(Restored(vol.View(), lost)), Restored(vol.View(), lost))
    ensures ok <==>
              Takes(old(Restored(vol.View(), lost)), nd, nn, BlocksLeft(vol.geo, vol.Books(), old(vol.View()).used))
  {
    hide Items, Drifts, SuperDrift, Intact, Names, DirShape, OnlyLeaked, KeepsOthers, DirChanged, Shapely, Shifted,
         RoomFor, BlocksLeft, Takes, Restored, OneBlockEdited, SameUse, Sound;
    ghost var v, meta, first := Restored(vol.View(), lost), vol.meta, vol.geo.first;
    SameTables(vol.View(), lost);
    CanMoveReady(v, meta, first, od, on, nd, nn, i);
    assert Roomy(v, nd, |nn|) ==> RoomFor(v, nd, nn);
    ok := InsertEntry(vol, lost, nd, nn, i, ft);
    if !ok {
      return;
    }
    ghost var x := Restored(vol.View(), lost);
    SameTables(vol.View(), lost);
    StillHeld(v, x, meta, first, od, on, nd, nn, i);
    var removed := RemoveEntry(vol, lost, od, on);
    ghost var w := Restored(vol.View(), lost);
    ShiftStep(v, x, w, meta, first, od, on, nd, nn, i);
    if Roomy(v, nd, |nn|) {
      EditedUse(v, x, meta, first, nd);
      EditedUse(x, w, meta, first, od);
      UseChain(v, x, w);
    }
  }

  lemma SameTables(v: Vol, lost: iset<nat>)
    ensures Restored(v, lost).inodes == v.inodes
  {
  }

  lemma CanMoveReady(v: Vol, meta: set<nat>, first: nat, od: nat, on: Name, nd: nat, nn: Name, i: nat)
    requires CanMove(v, meta, first, od, on, nd, nn, i)
    ensures Fs(v, meta, first) && 0 < od && 0 < i < |v.inodes| && nd < |v.inodes| && |v.inodes| < 0x1_0000_0000
    ensures IsDir(v.inodes[nd]) ==> DirShape(v.inodes[nd], v.blocks) && nn !in Names(v, nd)
  {
    hide Sound, DirShape, Names, Linked;
    HoldsKinds(v, meta, first, od, on, i);
    if IsDir(v.inodes[nd]) {
      assert TreeOf(v).names[nd] == Names(v, nd);
    }
  }

  /** What a directory needs before it can change parents. */
  ghost predicate CanReparent(x: Vol, meta: set<nat>, first: nat, i: nat, od: nat, nd: nat) {
    && Between(x, meta, first) && od != nd && 0 < i < |x.inodes| && 0 < od < |x.inodes| && 0 < nd < |x.inodes|
    && IsDir(x.inodes[i]) && IsDir(x.inodes[od]) && IsDir(x.inodes[nd])
    && x.inodes[od].links < 0x1_0000 && x.inodes[nd].links < 0xFFFF
    && i in TreeOf(x).names && DOTDOT in TreeOf(x).names[i]
  }

  ghost function ReparentedTree(t: Tree, i: nat, od: nat, nd: nat): Tree
    requires i in t.names && od < |t.links| && nd < |t.links|
  {
    Adopted(t, i,
      nd).(links := t.links[od := if t.links[od] > 0 then t.links[od] - 1 else t.links[od]][nd := t.links[nd] + 1])
  }

  ghost predicate Reparented(x: Vol, w: Vol, meta: set<nat>, first: nat, i: nat, od: nat, nd: nat) {
    && Shapely(x) && Between(w, meta, first) && i in TreeOf(x).names && od < |TreeOf(x).links| && nd < |TreeOf(x).links|
    && TreeOf(w) == ReparentedTree(TreeOf(x), i, od, nd)
    && KeepsAllBut(x, w, {i, od, nd})
  }

  /** The two link counts of fs/ext2/write.c:280-289. */
  ghost function Recounted(y: Vol, od: nat, nd: nat): Vol
    requires od < |y.inodes| && nd < |y.inodes|
  {
    var links := y.inodes[od].links;
    var z := y.(inodes := y.inodes[od := y.inodes[od].(links := if links > 0 then links - 1 else links)]);
    z.(inodes := z.inodes[nd := z.inodes[nd].(links := z.inodes[nd].links + 1)])
  }

  lemma ReparentStep(x: Vol, y: Vol, meta: set<nat>, first: nat, i: nat, od: nat, nd: nat)
    requires CanReparent(x, meta, first, i, od, nd) && DirShape(x.inodes[i], x.blocks)
    requires DirChanged(x, y, meta, first, i, Names(x, i)[DOTDOT := nd]) && y.inodes == x.inodes
    ensures Reparented(x, Recounted(y, od, nd), meta, first, i, od, nd)
  {
    hide DirShape, Names, KeepsOthers, DirChanged, Fs, Tidy, Shapely;
    DirStep(x, y, meta, first, i, Names(x, i)[DOTDOT := nd]);
    var links := y.inodes[od].links;
    var z := y.(inodes := y.inodes[od := y.inodes[od].(links := if links > 0 then links - 1 else links)]);
    LinksStep(y, meta, first, od, if links > 0 then links - 1 else links);
    LinksStep(z, meta, first, nd, z.inodes[nd].links + 1);
    var w := Recounted(y, od, nd);
    KeepsOne(x, y, i);
    KeepsChain(x, y, z, {i}, od);
    KeepsChain(x, z, w, {i} + {od}, nd);
    assert {i} + {od} + {nd} == {i, od, nd};
    assert TreeOf(y).links[od] == y.inodes[od].links;
    assert TreeOf(x).links[nd] == x.inodes[nd].links;
  }

  /** fs/ext2/write.c:277-290: ".." follows, and so do the two parents' link counts. */
  method Reparent(vol: Volume, i: nat, od: nat, nd: nat)
    requires vol.Valid() && CanReparent(vol.View(), vol.meta, vol.geo.first, i, od, nd)
    modifies vol
    ensures vol.Valid() && vol.Books() == old(vol.Books()) && vol.View().used == old(vol.View()).used
    ensures Reparented(old(vol.View()), vol.View(), vol.meta, vol.geo.first, i, od, nd)
  {
    hide Items, Drifts, SuperDrift, Names, DirShape, KeepsOthers, DirChanged, Shapely, Reparented;
    ghost var x, meta, first := vol.View(), vol.meta, vol.geo.first;
    ReparentReady(x, meta, first, i, od, nd);
    var set_ := DirSetParent(vol, i, nd);
    ghost var y := vol.View();
    ReparentStep(x, y, meta, first, i, od, nd);
    var readOld, op := vol.ReadInode(od);
    var storedOld := vol.WriteInode(od, op.(links := if op.links > 0 then op.links - 1 else op.links));
    var readNew, np := vol.ReadInode(nd);
    var storedNew := vol.WriteInode(nd, np.(links := Wrap16(np.links + 1)));
    assert vol.View() == Recounted(y, od, nd);
  }

  lemma ReparentReady(x: Vol, meta: set<nat>, first: nat, i: nat, od: nat, nd: nat)
    requires CanReparent(x, meta, first, i, od, nd)
    ensures Fs(x, meta, first) && |x.inodes| < 0x1_0000_0000
    ensures DirShape(x.inodes[i], x.blocks) && DOTDOT in Names(x, i)
  {
    hide Sound, DirShape, Names;
    assert TreeOf(x).names[i] == Names(x, i);
  }

  /** The outcome of moving a name: the tree has moved it, and only the inodes concerned have changed. */
  ghost predicate MovedTo(v: Vol, w: Vol, od: nat, on: Name, nd: nat, nn: Name, i: nat) {
    && Shapely(v) && Shapely(w) && HasEntry(TreeOf(v), od, on) && nd in TreeOf(v).names
    && od < |TreeOf(v).links| && nd < |TreeOf(v).links|
    && TreeOf(w) == Moved(TreeOf(v), od, on, nd, nn)
    && KeepsAllBut(v, w, if i in TreeOf(v).names then {od, nd, i} else {od, nd})
  }

  lemma MoveWithin(v: Vol, x: Vol, meta: set<nat>, first: nat, od: nat, on: Name, nd: nat, nn: Name, i: nat)
    requires CanMove(v, meta, first, od, on, nd, nn, i) && Shifted(v, x, meta, first, od, on, nd, nn, i)
    requires !IsDir(v.inodes[i]) || od == nd
    ensures Intact(x, meta, first) && MovedTo(v, x, od, on, nd, nn, i)
  {
    hide Fs, Tidy, Linked, Shapely, Intact, Unbind, Bind;
    IntactBetween(v, meta, first);
    HoldsKinds(v, meta, first, od, on, i);
    MovedLinked(TreeOf(v), od, on, nd, nn);
    assert TreeOf(x) == Moved(TreeOf(v), od, on, nd, nn);
    LinkedIntact(x, meta, first);
  }

  lemma MoveReady(v: Vol, x: Vol, meta: set<nat>, first: nat, od: nat, on: Name, nd: nat, nn: Name, i: nat)
    requires CanMove(v, meta, first, od, on, nd, nn, i) && Shifted(v, x, meta, first, od, on, nd, nn, i) && nd > 0
    requires IsDir(v.inodes[i]) && od != nd
    ensures CanReparent(x, meta, first, i, od, nd)
  {
    hide Fs, Tidy, Shapely, Intact, Linked, KeepsAllBut;
    IntactBetween(v, meta, first);
    HoldsKinds(v, meta, first, od, on, i);
    MovedDots(TreeOf(v), od, on, nd, nn, i);
    KindsMeet(v, x, od);
    KindsMeet(v, x, nd);
    KindsMeet(v, x, i);
    DirCountBound(v, meta, first, nd);
    DirCountBound(v, meta, first, od);
  }

  lemma KindsMeet(v: Vol, x: Vol, k: nat)
    requires Shapely(v) && Shapely(x) && TreeOf(x).kinds == TreeOf(v).kinds && TreeOf(x).links == TreeOf(v).links
             && k in TreeOf(v).names
    ensures |x.inodes| == |v.inodes| && k < |v.inodes| && IsDir(v.inodes[k]) && IsDir(x.inodes[k])
            && x.inodes[k].links == v.inodes[k].links
  {
    hide DirShape, Names;
    assert |TreeOf(x).kinds| == |x.inodes|;
    assert KindOf(v.inodes[k]) == TreeOf(v).kinds[k];
    assert KindOf(x.inodes[k]) == TreeOf(x).kinds[k];
    assert v.inodes[k].links == TreeOf(v).links[k];
    assert x.inodes[k].links == TreeOf(x).links[k];
  }

  lemma MovedDots(t: Tree, od: nat, on: Name, nd: nat, nn: Name, i: nat)
    requires Linked(t) && HasEntry(t, od, on) && t.names[od][on] == i && i in t.names && nd in t.names && Proper(nn)
    ensures var u := Unbind(Bind(t, nd, nn, i), od, on); i in u.names && DOTDOT in u.names[i]
  {
    hide CountOk;
  }

  lemma MoveAcross(v: Vol, x: Vol, w: Vol, meta: set<nat>, first: nat, od: nat, on: Name, nd: nat, nn: Name, i: nat)
    requires CanMove(v, meta, first, od, on, nd, nn, i) && Shifted(v, x, meta, first, od, on, nd, nn, i)
    requires IsDir(v.inodes[i]) && od != nd && Reparented(x, w, meta, first, i, od, nd)
    ensures Intact(w, meta, first) && MovedTo(v, w, od, on, nd, nn, i)
  {
    hide Fs, Tidy, Shapely, Intact, Linked, ReparentedTree, Moved, KeepsAllBut, Unbind, Bind, TreeOf, Names;
    IntactBetween(v, meta, first);
    HoldsKinds(v, meta, first, od, on, i);
    MovedLinked(TreeOf(v), od, on, nd, nn);
    ReparentedIsMoved(TreeOf(v), TreeOf(x), od, on, nd, nn, i);
    LinkedIntact(w, meta, first);
    KeepsBoth(v, x, w, {od, nd}, {i, od, nd});
    assert {od, nd} + {i, od, nd} == {od, nd, i};
  }

  lemma ReparentedIsMoved(t: Tree, x: Tree, od: nat, on: Name, nd: nat, nn: Name, i: nat)
    requires HasEntry(t, od, on) && t.names[od][on] == i && i in t.names && nd in t.names && od != nd
    requires od < |t.links| && nd < |t.links| && x == Unbind(Bind(t, nd, nn, i), od, on) && i in x.names
    ensures ReparentedTree(x, i, od, nd) == Moved(t, od, on, nd, nn)
  {
    assert x.links == t.links;
    hide Unbind, Bind, Adopted;
  }

  lemma KeepsBoth(u: Vol, v: Vol, w: Vol, s: set<nat>, r: set<nat>)
    requires KeepsAllBut(u, v, s) && KeepsAllBut(v, w, r)
    ensures KeepsAllBut(u, w, s + r)
  {
    hide Body;
    forall j: nat | j < |u.inodes| && j !in s + r ensures KeepsInode(u, w, j) {
      assert KeepsInode(u, v, j) && KeepsInode(v, w, j);
    }
  }

  /** fs/ext2/write.c:272-291 */
  method Move(vol: Volume, ghost lost: iset<nat>, od: nat, on: Name, nd: nat, nn: Name, i: nat) returns (ok: bool)
    requires vol.Valid() && CanMove(Restored(vol.View(), lost), vol.meta, vol.geo.first, od, on, nd, nn, i) && 0 < nd
             && 1 <= |nn| <= 255 && |on| <= 255
    requires lost != iset{} ==> Roomy(Restored(vol.View(), lost), nd, |nn|) && !IsDir(vol.inodes[i])
    modifies vol
    ensures vol.Valid() && Intact(Restored(vol.View(), lost), vol.meta, vol.geo.first)
    ensures vol.Books() == old(vol.Books())
    ensures ok ==> MovedTo(old(Restored(vol.View(), lost)), Restored(vol.View(), lost), od, on, nd, nn, i)
    ensures !ok ==> OnlyLeaked(old(Restored(vol.View(), lost)), Restored(vol.View(), lost), vol.meta, vol.geo.first)
    ensures old(Roomy(Restored(vol.View(), lost), nd, |nn|)) ==> ok && vol.View().used == old(vol.View()).used
    ensures lost != iset{} ==> SameUse(old(Restored(vol.View(), lost)), Restored(vol.View(), lost))
    ensures ok <==>
              Takes(old(Restored(vol.View(), lost)), nd, nn, BlocksLeft(vol.geo, vol.Books(), old(vol.View()).used))
  {
    hide Items, Drifts, SuperDrift, Intact, CanMove, Shifted, CanReparent, Reparented, MovedTo, OnlyLeaked, Roomy,
         BlocksLeft, Takes, Restored, SameUse;
    ghost var v, meta, first := Restored(vol.View(), lost), vol.meta, vol.geo.first;
    SameTables(vol.View(), lost);
    CanMoveReady(v, meta, first, od, on, nd, nn, i);
    var read, n := vol.ReadInode(i);
    ok := Shift(vol, lost, od, on, nd, nn, i, if IsDir(n) then 2 else if IsLnk(n) then 7 else 1);
    ghost var x := Restored(vol.View(), lost);
    if !ok {
      CanMoveIntact(v, meta, first, od, on, nd, nn, i);
      LeakedIntact(v, x, meta, first);
      return;
    }
    if IsDir(n) && od != nd {
      MoveReady(v, x, meta, first, od, on, nd, nn, i);
      RestoredNone(vol.View());
      Reparent(vol, i, od, nd);
      RestoredNone(vol.View());
      MoveAcross(v, x, vol.View(), meta, first, od, on, nd, nn, i);
    } else {
      MoveWithin(v, x, meta, first, od, on, nd, nn, i);
    }
  }

  lemma CanMoveIntact(v: Vol, meta: set<nat>, first: nat, od: nat, on: Name, nd: nat, nn: Name, i: nat)
    requires CanMove(v, meta, first, od, on, nd, nn, i)
    ensures Intact(v, meta, first)
  {
    hide Intact;
  }

  // ---- rename by path ----

  /** Clearing the destination leaves the entry that is to move, and frees the destination name. */
  lemma FileClears(v: Vol, u: Vol, meta: set<nat>, first: nat, od: nat, on: Name, nd: nat, nn: Name, i: nat, e: nat,
                   lost: iset<nat>)
    requires Holds(v, meta, first, od, on, i) && FileGone(v, u, meta, first, nd, nn, e) && e != i
             && e !in TreeOf(v).names
    requires lost == if Intact(u, meta, first) then iset{} else v.used
    ensures lost == iset{} ==> Intact(u, meta, first)
    ensures CanMove(Restored(u, lost), meta, first, od, on, nd, nn, i) && Roomy(Restored(u, lost), nd, |nn|)
    ensures Intact(u, meta, first) <==> (v.inodes[e].links == 1 ==> Harmless(v, meta, first, e))
    ensures i < |u.inodes| && (IsDir(u.inodes[i]) <==> IsDir(v.inodes[i]))
  {
    hide Intact, Shapely, Roomy, Names, Restored, Harmless, RawWords;
    assert |u.inodes| == |v.inodes|;
    hide KeepsAllBut;
    var t := TreeOf(v);
    assert HasEntry(Unbind(t, nd, nn), od, on) && Unbind(t, nd, nn).names[od][on] == i;
    GoneBounds(v, nd, nn, e);
    RestoredNone(u);
    SameTables(u, lost);
    RestoredTree(u, lost);
    RoomyRestored(u, lost, nd, |nn|);
    SameKind(v, u, i);
  }

  lemma RoomyRestored(u: Vol, lost: iset<nat>, d: nat, len: nat)
    requires Roomy(u, d, len)
    ensures Roomy(Restored(u, lost), d, len)
  {
    hide DirShape, Body;
    forall same: Name | |same| == len ensures RoomFor(Restored(u, lost), d, same) {
      assert RoomFor(u, d, same);
    }
  }

  lemma SameKind(v: Vol, u: Vol, i: nat)
    requires Shapely(v) && Shapely(u) && i < |v.inodes| == |u.inodes| && TreeOf(u).kinds[i] == TreeOf(v).kinds[i]
    ensures IsDir(u.inodes[i]) <==> IsDir(v.inodes[i])
  {
    hide DirShape, Names;
    assert KindOf(v.inodes[i]) == TreeOf(v).kinds[i];
    assert KindOf(u.inodes[i]) == TreeOf(u).kinds[i];
  }

  lemma GoneBounds(v: Vol, d: nat, leaf: Name, e: nat)
    requires Shapely(v) && HasEntry(TreeOf(v), d, leaf)
    ensures d < |v.inodes|
  {
    hide DirShape, Names;
  }

  lemma DirClears(v: Vol, u: Vol, meta: set<nat>, first: nat, od: nat, on: Name, nd: nat, nn: Name, i: nat, e: nat)
    requires Holds(v, meta, first, od, on, i) && DirGone(v, u, nd, nn, e) && e != i && Intact(u, meta, first)
             && EmptyDir(TreeOf(v), e)
    ensures CanMove(u, meta, first, od, on, nd, nn, i)
  {
    hide Intact, Shapely, Roomy, Names;
    assert |u.inodes| == |v.inodes|;
    hide KeepsAllBut;
    var t := TreeOf(v);
    assert od != e;
    assert HasEntry(Unbind(t, nd, nn), od, on) && Unbind(t, nd, nn).names[od][on] == i;
    GoneBounds(v, nd, nn, e);
  }

  /** Which error ext2_rename reports before it changes anything (fs/ext2/write.c:223-249). */
  ghost function RenameCode(t: Tree, p: Path, q: Path): Errno {
    if ParentOf(t, p) == Nowhere || ParentOf(t, q) == Nowhere || Target(t, p) == Nowhere then ENOENT
    else if Target(t, q) == Nowhere || Target(t, q) == Target(t, p) then Ok
    else if Target(t, q).ino in t.names && Target(t, p).ino !in t.names then EISDIR
    else if Target(t, q).ino !in t.names && Target(t, p).ino in t.names then ENOTDIR
    else if Target(t, q).ino in t.names && !EmptyDir(t, Target(t, q).ino) then ENOTEMPTY
    else Ok
  }

  /** A completed rename: the destination went first (giving mid), then the name moved without taking a block. */
  ghost predicate Renamed(t: Tree, v: Vol, mid: Vol, w: Vol, meta: set<nat>, first: nat, p: Path, q: Path) {
    && ParentOf(t, p).At? && ParentOf(t, q).At? && Target(t, p).At?
    && if Target(t, q) == Target(t, p) then w == v
       else
         && (if Target(t, q).At? then Gone(t, v, mid, meta, first, q) && w.used == mid.used else mid == v)
         && MovedTo(mid, w, ParentOf(t, p).ino, Leaf(p), ParentOf(t, q).ino, Leaf(q), Target(t, p).ino)
  }

  /**
   * fs/ext2/write.c:251-270: make room for the new name.  If freeing what was there cleared
   * bits of blocks in use, the entry can still move: `lost` holds them.
   */
  method ClearDestination(vol: Volume, nd: nat, nn: Name, e: nat, ghost od: nat, ghost on: Name, ghost i: nat)
    returns (ghost lost: iset<nat>)
    requires vol.Valid() && Holds(vol.View(), vol.meta, vol.geo.first, nd, nn, e) && |nn| <= 255
    requires Holds(vol.View(), vol.meta, vol.geo.first, od, on, i) && e != i
    requires IsDir(vol.inodes[e]) ==> EmptyDir(TreeOf(vol.View()), e)
    requires IsDir(vol.inodes[e]) <==> IsDir(vol.inodes[i])
    modifies vol
    ensures vol.Valid() && vol.Books() == old(vol.Books())
    ensures Intact(vol.View(), vol.meta, vol.geo.first) <==>
              (old(vol.inodes[e]).links == 1 ==> Harmless(old(vol.View()), vol.meta, vol.geo.first, e))
    ensures if old(IsDir(vol.inodes[e]))
            then Intact(vol.View(), vol.meta, vol.geo.first) && DirGone(old(vol.View()), vol.View(), nd, nn, e)
            else FileGone(old(vol.View()), vol.View(), vol.meta, vol.geo.first, nd, nn, e)
    ensures lost == iset{} ==> Intact(vol.View(), vol.meta, vol.geo.first)
    ensures lost != iset{} ==> !Intact(vol.View(), vol.meta, vol.geo.first) && lost == old(vol.View()).used
    ensures Intact(Restored(vol.View(), lost), vol.meta, vol.geo.first)
    ensures CanMove(Restored(vol.View(), lost), vol.meta, vol.geo.first, od, on, nd, nn, i)
            && Roomy(Restored(vol.View(), lost), nd, |nn|)
    ensures i < |vol.inodes| && (lost != iset{} ==> !IsDir(vol.inodes[i]))
  {
    hide Items, Intact, FileGone, DirGone, Holds, CanMove, Roomy, EmptyDir, Harmless, Names, DirShape, Restored;
    ghost var v, meta, first := vol.View(), vol.meta, vol.geo.first;
    HoldsKinds(v, meta, first, nd, nn, e);
    HoldsBounds(v, meta, first, nd, nn, e);
    HoldsBounds(v, meta, first, od, on, i);
    var read, n := vol.ReadInode(e);
    if IsDir(n) {
      DropDirectory(vol, nd, nn, e);
      RestoredNone(vol.View());
      DirClears(v, vol.View(), meta, first, od, on, nd, nn, i, e);
      DirGoneRoomy(v, vol.View(), nd, nn, e);
      DirHarmless(v, meta, first, nd, nn, e);
      lost := iset{};
    } else {
      DropFile(vol, nd, nn, e);
      lost := if Intact(vol.View(), meta, first) then iset{} else v.used;
      FileClears(v, vol.View(), meta, first, od, on, nd, nn, i, e, lost);
    }
    CanMoveIntact(Restored(vol.View(), lost), meta, first, od, on, nd, nn, i);
  }

  /** fs/ext2/write.c:244-291 with a destination that exists. */
  method Replace(vol: Volume, od: nat, on: Name, nd: nat, nn: Name, i: nat, e: nat) returns (ok: bool, ghost mid: Vol)
    requires vol.Valid() && Holds(vol.View(), vol.meta, vol.geo.first, nd, nn, e) && 1 <= |nn| <= 255 && nd > 0
    requires Holds(vol.View(), vol.meta, vol.geo.first, od, on, i) && e != i && |on| <= 255
    requires IsDir(vol.inodes[e]) ==> EmptyDir(TreeOf(vol.View()), e)
    requires IsDir(vol.inodes[e]) <==> IsDir(vol.inodes[i])
    modifies vol
    ensures ok && vol.Valid() && vol.Books() == old(vol.Books()) && vol.View().used == mid.used
    ensures if old(IsDir(vol.inodes[e]))
            then Intact(mid, vol.meta, vol.geo.first) && DirGone(old(vol.View()), mid, nd, nn, e)
            else FileGone(old(vol.View()), mid, vol.meta, vol.geo.first, nd, nn, e)
    ensures MovedTo(mid, vol.View(), od, on, nd, nn, i)
    ensures Intact(vol.View(), vol.meta, vol.geo.first) <==>
              (old(vol.inodes[e]).links == 1 ==> Harmless(old(vol.View()), vol.meta, vol.geo.first, e))
    ensures Intact(Restored(vol.View(), old(vol.View()).used), vol.meta, vol.geo.first)
  {
    hide Items, Drifts, SuperDrift, Intact, FileGone, DirGone, Holds, CanMove, Roomy, EmptyDir, Harmless, Restored,
         MovedTo, SameUse, OnlyLeaked, BlocksLeft, Takes, TreeOf;
    ghost var v, meta, first := vol.View(), vol.meta, vol.geo.first;
    HoldsBounds(v, meta, first, nd, nn, e);
    HoldsBounds(v, meta, first, od, on, i);
    ghost var lost := ClearDestination(vol, nd, nn, e, od, on, i);
    mid := vol.View();
    ok := Move(vol, lost, od, on, nd, nn, i);
    MoveEnds(mid, vol.View(), meta, first, lost, v.used);
    MovedAsRestored(mid, vol.View(), lost, od, on, nd, nn, i);
  }

  lemma MoveEnds(mid: Vol, w: Vol, meta: set<nat>, first: nat, lost: iset<nat>, used: iset<nat>)
    requires Intact(Restored(w, lost), meta, first) && w.used == mid.used
    requires lost == iset{} ==> Intact(mid, meta, first)
    requires lost != iset{} ==>
               && Intact(Restored(mid, lost), meta, first) && SameUse(Restored(mid, lost), Restored(w, lost))
               && !Intact(mid, meta, first) && lost == used
    ensures Intact(w, meta, first) <==> Intact(mid, meta, first)
    ensures Intact(Restored(w, used), meta, first)
  {
    hide Intact, Restored, SameUse;
    if lost == iset{} {
      RestoredNone(w);
      IntactRestored(w, meta, first, used);
    } else {
      LossStays(mid, w, meta, first, lost);
    }
  }

  lemma DirGoneRoomy(v: Vol, w: Vol, d: nat, leaf: Name, i: nat)
    requires DirGone(v, w, d, leaf, i)
    ensures Roomy(w, d, |leaf|)
  {
    hide Roomy, Shapely, KeepsAllBut, RemovedDir, TreeOf;
  }

  lemma DirHarmless(v: Vol, meta: set<nat>, first: nat, d: nat, leaf: Name, e: nat)
    requires Holds(v, meta, first, d, leaf, e) && IsDir(v.inodes[e])
    ensures Harmless(v, meta, first, e)
  {
    hide Sound, Harmless, RawWords, Tidy, Linked;
    HoldsSound(v, meta, first, d, leaf, e);
    PlainHarmless(v, meta, first, e);
  }

  /** fs/ext2/write.c:223-238: both parents, the entry to move, and what is already there. */
  method FindBoth(vol: Volume, p: Path, q: Path) returns (ok: bool, od: nat, nd: nat, i: nat, present: bool, e: nat)
    requires Mounted(vol) && Canonical(p) && Canonical(q)
    ensures ok <==> ParentOf(Namespace(vol), p).At? && ParentOf(Namespace(vol), q).At? && Target(Namespace(vol), p).At?
    ensures ok ==>
              && ParentOf(Namespace(vol), p) == At(od) && ParentOf(Namespace(vol), q) == At(nd)
              && Target(Namespace(vol), p) == At(i)
              && Target(Namespace(vol), q) == (if present then At(e) else Nowhere)
              && Holds(vol.View(), vol.meta, vol.geo.first, od, Leaf(p), i)
    ensures ok && present ==> Holds(vol.View(), vol.meta, vol.geo.first, nd, Leaf(q), e)
    ensures ok && !present ==>
              nd < |vol.inodes| && CanMove(vol.View(), vol.meta, vol.geo.first, od, Leaf(p), nd, Leaf(q), i)
    ensures ok ==> nd > 0
  {
    hide Items, Intact, Walk, Holds, Names, DirShape, CanMove, Shapely;
    ok, od, nd, i, present, e := false, 0, 0, 0, false, 0;
    if !Splits(p) || !Splits(q) {
      return;
    }
    var okOld, okNew;
    okOld, od := PathToInode(vol, Parent(p));
    okNew, nd := PathToInode(vol, Parent(q));
    if !okOld || !okNew {
      return;
    }
    WalkByParent(Namespace(vol), p);
    WalkByParent(Namespace(vol), q);
    MountedIsReady(vol);
    ok, i := DirLookup(vol, od, Leaf(p));
    LookupIsStep(vol, od, Leaf(p));
    if !ok {
      return;
    }
    TargetHolds(vol, p);
    present, e := DirLookup(vol, nd, Leaf(q));
    LookupIsStep(vol, nd, Leaf(q));
    if present {
      TargetHolds(vol, q);
    } else {
      CanMoveTo(vol.View(), vol.meta, vol.geo.first, od, Leaf(p), nd, Leaf(q), i);
    }
  }

  /** Giving up the last link of what f is at would hurt nobody. */
  ghost predicate HarmlessAt(v: Vol, meta: set<nat>, first: nat, f: Found) {
    f.At? ==> f.ino < |v.inodes| && (v.inodes[f.ino].links == 1 ==> Harmless(v, meta, first, f.ino))
  }

  /** fs/ext2/write.c:244-249: a directory only over an empty directory, a file only over a file. */
  method CheckKinds(vol: Volume, ghost od: nat, ghost on: Name, ghost nd: nat, ghost nn: Name, i: nat, e: nat)
    returns (rc: Errno)
    requires Mounted(vol) && Holds(vol.View(), vol.meta, vol.geo.first, od, on, i)
             && Holds(vol.View(), vol.meta, vol.geo.first, nd, nn, e)
    ensures i < |vol.inodes| && e < |vol.inodes|
    ensures IsDir(vol.inodes[i]) <==> i in Namespace(vol).names
    ensures IsDir(vol.inodes[e]) <==> e in Namespace(vol).names
    ensures rc ==
            if e in Namespace(vol).names && i !in Namespace(vol).names then EISDIR
            else if e !in Namespace(vol).names && i in Namespace(vol).names then ENOTDIR
            else if e in Namespace(vol).names && !EmptyDir(Namespace(vol), e) then ENOTEMPTY
            else Ok
  {
    hide Items, Intact, Holds, Names, DirShape, OnlyDotNames, EmptyDir;
    ghost var v, meta, first := vol.View(), vol.meta, vol.geo.first;
    HoldsBounds(v, meta, first, od, on, i);
    HoldsKinds(v, meta, first, od, on, i);
    HoldsBounds(v, meta, first, nd, nn, e);
    HoldsKinds(v, meta, first, nd, nn, e);
    var readOld, n := vol.ReadInode(i);
    var readNew, m := vol.ReadInode(e);
    if IsDir(m) != IsDir(n) {
      return if IsDir(m) then EISDIR else ENOTDIR;
    }
    if IsDir(m) {
      MountedIsReady(vol);
      var empty := DirIsEmpty(vol, e);
      EmptyIs(vol, e);
      if !empty {
        return ENOTEMPTY;
      }
    }
    return Ok;
  }

  /**
   * ext2_rename (fs/ext2/write.c:217-292).  The volume stays intact if and only if what the rename
   * replaces is harmless to free; the bits that freeing cleared are all that is wrong otherwise.
   */
  method Rename(vol: Volume, p: Path, q: Path) returns (rc: Errno, ghost mid: Vol)
    requires Mounted(vol) && Canonical(p) && Canonical(q)
    modifies vol
    ensures vol.Valid() && vol.Books() == old(vol.Books())
    ensures Mounted(vol) <==>
              || rc != Ok || Target(old(Namespace(vol)), q) == Target(old(Namespace(vol)), p)
              || HarmlessAt(old(vol.View()), vol.meta, vol.geo.first, Target(old(Namespace(vol)), q))
    ensures Intact(Restored(vol.View(), old(vol.View()).used), vol.meta, vol.geo.first)
    ensures RenameCode(old(Namespace(vol)), p, q) != Ok ==>
              rc == RenameCode(old(Namespace(vol)), p, q) && vol.View() == old(vol.View())
    ensures RenameCode(old(Namespace(vol)), p, q) == Ok ==>
              || (rc == Ok
                 && Renamed(old(Namespace(vol)), old(vol.View()), mid, vol.View(), vol.meta, vol.geo.first, p, q))
              || (rc == ENOSPC && Target(old(Namespace(vol)), q) == Nowhere
                 && OnlyLeaked(old(vol.View()), vol.View(), vol.meta, vol.geo.first))
    ensures RenameCode(old(Namespace(vol)), p, q) == Ok && Target(old(Namespace(vol)), q) == Nowhere ==>
              (rc == Ok <==> FitsAt(old(Namespace(vol)), old(vol.View()), vol.geo, vol.Books(), q))
  {
    hide Items, Intact, Walk, FileGone, DirGone, Holds, Names, DirShape, OnlyDotNames, EmptyDir, Harmless, MovedTo,
         CanMove, OnlyLeaked, Roomy,
      BlocksLeft, Takes, Restored, SameUse;
    ghost var v, meta, first := vol.View(), vol.meta, vol.geo.first;
    mid := v;
    IntactRestored(v, meta, first, v.used);
    var ok, od, nd, i, present, e := FindBoth(vol, p, q);
    if !ok {
      return ENOENT, mid;
    }
    if present && e == i {
      return Ok, mid;
    }
    if present {
      rc := CheckKinds(vol, od, Leaf(p), nd, Leaf(q), i, e);
      if rc != Ok {
        return;
      }
      ok, mid := Replace(vol, od, Leaf(p), nd, Leaf(q), i, e);
      return Ok, mid;
    }
    RestoredNone(v);
    var moved := Move(vol, iset{}, od, Leaf(p), nd, Leaf(q), i);
    RestoredNone(vol.View());
    IntactRestored(vol.View(), meta, first, v.used);
    rc := if moved then Ok else ENOSPC;
  }

  lemma IntactRestored(v: Vol, meta: set<nat>, first: nat, lost: iset<nat>)
    requires Intact(v, meta, first)
    ensures Intact(Restored(v, lost), meta, first)
  {
    hide Sound, Tidy, Linked, Restored;
    FsShapely(v, meta, first);
    SoundRestored(v, meta, first, lost);
    RestoredIntact(v, meta, first, lost);
  }

  /** Moving a name changes no references, so blocks in use that are marked free stay so. */
  lemma LossStays(u: Vol, w: Vol, meta: set<nat>, first: nat, lost: iset<nat>)
    requires Intact(Restored(u, lost), meta, first) && SameUse(Restored(u, lost), Restored(w, lost)) && w.used == u.used
    ensures Intact(w, meta, first) ==> Intact(u, meta, first)
  {
    hide Sound, Linked, Shapely, TreeOf;
    if Intact(w, meta, first) {
      UseSound(u, w, meta, first);
      RestoredTree(u, lost);
      FsShapely(Restored(u, lost), meta, first);
      UnrestoredTidy(u, lost);
      RestoredNone(u);
      RestoredIntact(u, meta, first, iset{});
    }
  }

  lemma UnrestoredTidy(u: Vol, lost: iset<nat>)
    requires Tidy(Restored(u, lost))
    ensures Tidy(u)
  {
    forall i: nat | i < |u.inodes| ensures TidyAt(u, i) {
      assert TidyAt(Restored(u, lost), i);
    }
  }

  lemma UseSound(u: Vol, w: Vol, meta: set<nat>, first: nat)
    requires Sound(w, meta, first) && SameUse(u, w) && w.used == u.used
    ensures Sound(u, meta, first)
  {
    hide Ref;
    var owner :| SoundBy(w, meta, first, owner);
    forall r | r in owner ensures OwnerRefers(u.inodes, u.blocks, r, owner[r]) {
      assert OwnerRefers(w.inodes, w.blocks, r, owner[r]);
    }
    assert SoundBy(u, meta, first, owner);
  }

  lemma MovedAsRestored(u: Vol, w: Vol, lost: iset<nat>, od: nat, on: Name, nd: nat, nn: Name, i: nat)
    requires MovedTo(Restored(u, lost), Restored(w, lost), od, on, nd, nn, i)
    ensures MovedTo(u, w, od, on, nd, nn, i)
  {
    hide Shapely, Moved, TreeOf, Body;
    RestoredTree(u, lost);
    RestoredTree(w, lost);
    forall s: set<nat> | KeepsAllBut(Restored(u, lost), Restored(w, lost), s) ensures KeepsAllBut(u, w, s) {
      forall j: nat | j < |u.inodes| && j !in s ensures KeepsInode(u, w, j) {
        assert KeepsInode(Restored(u, lost), Restored(w, lost), j);
      }
    }
  }

  lemma CanMoveTo(v: Vol, meta: set<nat>, first: nat, od: nat, on: Name, nd: nat, nn: Name, i: nat)
    requires Holds(v, meta, first, od, on, i) && nd < |v.inodes| && Proper(nn)
             && (nd in TreeOf(v).names ==> nn !in TreeOf(v).names[nd])
    ensures CanMove(v, meta, first, od, on, nd, nn, i)
  {
    hide Intact;
  }
}
