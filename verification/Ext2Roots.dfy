/**
 * What the operations of fs/ext2/write.c do to the reach of the root, on volumes: each
 * keeps every directory reachable, ext2_rename exactly if it does not move a directory
 * below itself.
 */
module Ext2Roots {
  import opened Bytes
  import opened Ext2Refs
  import opened Ext2Volume
  import opened Ext2Sound
  import opened Ext2DirBlock
  import opened Ext2DirScan
  import opened Ext2Dir
  import opened Ext2Tree
  import opened Ext2Names
  import opened Ext2Write
  import opened Ext2Unlink
  import opened Ext2Rename
  import opened Ext2File
  import opened Ext2Reach

  lemma IntactTree(v: Vol, meta: set<nat>, first: nat)
    requires Intact(v, meta, first)
    ensures Shapely(v) && Linked(TreeOf(v))
  {
    hide Sound, Tidy, Linked, TreeOf, Shapely;
    FsShapely(v, meta, first);
  }

  lemma CreateRoots(v: Vol, w: Vol, meta: set<nat>, first: nat, rc: Errno, d: nat, leaf: Name, i: nat, isDir: bool)
    requires Intact(v, meta, first) && Outcome(v, w, meta, first, rc, d, leaf, i, isDir) && (rc == Ok ==> Proper(leaf))
    requires Rooted(TreeOf(v))
    ensures Shapely(w) && Rooted(TreeOf(w))
  {
    hide Intact, Shapely, TreeOf, Linked, Rooted, OnlyLeaked, KeepsAllBut, MadeDir, Created;
    IntactTree(v, meta, first);
    TreeSize(v);
    if rc == ENOSPC {
      LeakedIntact(v, w, meta, first);
    } else if isDir {
      MadeDirRooted(TreeOf(v), d, leaf, i);
    } else {
      FilesRooted(TreeOf(v), d, leaf, i);
    }
  }

  lemma LeakRoots(v: Vol, w: Vol, meta: set<nat>, first: nat)
    requires Intact(v, meta, first) && OnlyLeaked(v, w, meta, first) && Shapely(v) && Rooted(TreeOf(v))
    ensures Shapely(w) && Rooted(TreeOf(w))
  {
    hide Intact, OnlyLeaked, Rooted, TreeOf;
    LeakedIntact(v, w, meta, first);
  }

  lemma TreeSize(v: Vol)
    requires Shapely(v)
    ensures |TreeOf(v).kinds| == |TreeOf(v).links| == |v.inodes|
  {
    hide DirShape, Names;
  }

  lemma WriteRoots(t: Tree, v: Vol, mid: Vol, w: Vol, meta: set<nat>, first: nat, p: Path, i: nat, data: seq<byte>,
      append: bool, rc: Errno)
    requires Intact(v, meta, first) && Shapely(v) && t == TreeOf(v) && Canonical(p) && Rooted(t)
    requires Opened(t, v, mid, meta, first, p, i) && FileWritten(mid, w, meta, first, i, data, append, rc)
    ensures Shapely(w) && Rooted(TreeOf(w))
  {
    hide Intact, Outcome, Walk, Shapely, TreeOf, Rooted, KeepsOthers, References;
    if Walk(t, ROOT, p) == Nowhere {
      CreateRoots(v, mid, meta, first, Ok, ParentOf(t, p).ino, Leaf(p), i, false);
    }
  }

  lemma LinkRoots(t: Tree, v: Vol, w: Vol, meta: set<nat>, first: nat, p: Path, q: Path)
    requires Intact(v, meta, first) && Shapely(v) && t == TreeOf(v) && Canonical(q) && Rooted(t)
    requires LinkMade(t, v, w, meta, first, p, q) && v.inodes[Walk(t, ROOT, p).ino].links < 0xFFFF
    ensures Shapely(w) && Rooted(TreeOf(w))
  {
    hide Intact, Walk, Shapely, TreeOf, Rooted, Linked, KeepsAllBut, SameRefs, Body, LinkAdded;
    IntactTree(v, meta, first);
    TreeSize(v);
    FilesRooted(t, ParentOf(t, q).ino, Leaf(q), Walk(t, ROOT, p).ino);
  }

  // ---- removing ----

  /** The tree after one name went: a file's, or an empty directory's. */
  ghost predicate Less(t: Tree, w: Tree, d: nat, n: Name) {
    && Linked(t) && HasEntry(t, d, n)
    && var i := t.names[d][n];
       if i in t.names
       then EmptyDir(t, i) && d < |t.links| && i < |t.kinds| == |t.links| && w == RemovedDir(t, d, n)
       else i < |t.links| == |t.kinds| && t.kinds[i] == Other && t.links[i] > 0 && w == Unlinked(t, d, n)
  }

  lemma LessRooted(t: Tree, w: Tree, d: nat, n: Name)
    requires Less(t, w, d, n) && Rooted(t)
    ensures Rooted(w) && Linked(w)
  {
    hide Linked, Rooted, Unlinked, RemovedDir;
    var i := t.names[d][n];
    if i in t.names {
      RemovedDirRooted(t, d, n);
      RemovedDirLinked(t, d, n);
    } else {
      FilesRooted(t, d, n, i);
      UnlinkedLinked(t, d, n);
    }
  }

  /** The name is free afterwards, its directory stays, and so does the way up from there. */
  lemma LessKeeps(t: Tree, w: Tree, d: nat, n: Name, x: nat)
    requires Less(t, w, d, n)
    ensures d in w.names && n !in w.names[d] && (Outside(Parents(w), x, d) <==> Outside(Parents(t), x, d))
  {
    hide Linked, Outside, Parents, Climb;
    var i := t.names[d][n];
    if i in t.names {
      OnlyEntry(t, d, n);
      RemovedDirLinked(t, d, n);
      RemovedParents(t, d, n);
      ParentsClosed(t);
      SameWay(t, d, n, x);
    } else {
      BoundParents(t, d, n, 0);
      CountsIgnored(Unbind(t, d, n), w);
    }
  }

  lemma SameWay(t: Tree, d: nat, n: Name, x: nat)
    requires Linked(t) && HasEntry(t, d, n) && EmptyDir(t, t.names[d][n]) && d != t.names[d][n]
    ensures var m := Parents(t); Outside(m - {t.names[d][n]}, x, d) <==> Outside(m, x, d)
  {
    hide Linked, Climb, Parents;
    var m, c := Parents(t), t.names[d][n];
    ParentsClosed(t);
    forall y | y in m && y != c ensures m[y] != c {
      NotParent(t, d, n, y);
    }
    forall k: nat ensures Climb(m - {c}, d, k) == Climb(m, d, k) {
      ChildlessAvoided(m, c, d, k);
      ClimbSame(m, m - {c}, d, c, k);
    }
  }

  lemma GoneLess(t: Tree, v: Vol, w: Vol, meta: set<nat>, first: nat, p: Path)
    requires Intact(v, meta, first) && Shapely(v) && t == TreeOf(v) && Gone(t, v, w, meta, first, p)
    requires Target(t, p).At? && Target(t, p).ino in t.names ==> EmptyDir(t, Target(t, p).ino)
    ensures ParentOf(t, p).At? && Splits(p) && Shapely(w) && Less(t, TreeOf(w), ParentOf(t, p).ino, Leaf(p))
  {
    hide Intact, Walk, Shapely, TreeOf, Linked, KeepsAllBut, Roomy, Harmless, References, Unlinked, RemovedDir;
    IntactTree(v, meta, first);
    var d, i := ParentOf(t, p).ino, Target(t, p).ino;
    EntryKind(t, d, Leaf(p));
  }

  lemma EntryKind(t: Tree, d: nat, n: Name)
    requires Linked(t) && HasEntry(t, d, n)
    ensures t.names[d][n] < |t.kinds| && (t.names[d][n] !in t.names ==> t.kinds[t.names[d][n]] == Other)
  {
    hide CountOk;
  }

  // ---- renaming ----

  /** The rename would move a directory to a place below itself. */
  ghost predicate Below(t: Tree, p: Path, q: Path) {
    && ParentOf(t, p).At? && ParentOf(t, q).At? && Target(t, p).At?
    && Target(t, p).ino in t.names && ParentOf(t, p) != ParentOf(t, q)
    && !Outside(Parents(t), Target(t, p).ino, ParentOf(t, q).ino)
  }

  lemma SameTarget(t: Tree, p: Path, q: Path)
    requires Linked(t) && Canonical(p) && Canonical(q) && ParentOf(t, p).At? && ParentOf(t, q).At?
    requires Target(t, p).At? && Target(t, q) == Target(t, p)
    ensures Target(t, p).ino in t.names ==> ParentOf(t, p) == ParentOf(t, q)
  {
    hide Linked, Walk;
    WalkByParent(t, p);
    WalkByParent(t, q);
    if Target(t, p).ino in t.names {
      OnlyEntry(t, ParentOf(t, p).ino, Leaf(p));
      OnlyEntry(t, ParentOf(t, q).ino, Leaf(q));
    }
  }

  lemma FreeName(t: Tree, q: Path)
    requires ParentOf(t, q).At? && Target(t, q) == Nowhere
    ensures ParentOf(t, q).ino in t.names ==> Leaf(q) !in t.names[ParentOf(t, q).ino]
  {
    hide Walk;
    WalkByParent(t, q);
  }

  /** After a completed rename every directory is reachable if and only if none was moved below itself. */
  lemma RenameRoots(t: Tree, v: Vol, mid: Vol, w: Vol, meta: set<nat>, first: nat, p: Path, q: Path)
    requires Intact(v, meta, first) && Shapely(v) && t == TreeOf(v) && Rooted(t) && Canonical(p) && Canonical(q)
    requires RenameCode(t, p, q) == Ok && Renamed(t, v, mid, w, meta, first, p, q)
    ensures Shapely(w) && (Rooted(TreeOf(w)) <==> !Below(t, p, q))
  {
    hide Intact, Walk, Shapely, TreeOf, Linked, Rooted, Gone, Outside, Parents, KeepsAllBut, Moved, EmptyDir;
    IntactTree(v, meta, first);
    if Target(t, q) == Target(t, p) {
      SameTarget(t, p, q);
    } else {
      var od, nd, i, u := ParentOf(t, p).ino, ParentOf(t, q).ino, Target(t, p).ino, TreeOf(mid);
      if Target(t, q).At? {
        GoneLess(t, v, mid, meta, first, q);
        LessRooted(t, u, nd, Leaf(q));
        LessKeeps(t, u, nd, Leaf(q), i);
        TargetIs(t, q);
        StillMoves(t, u, nd, Leaf(q), od, Leaf(p), i, p);
      } else {
        FreeName(t, q);
        TargetIs(t, p);
      }
      MovedRooted(u, od, Leaf(p), nd, Leaf(q));
    }
  }

  lemma TargetIs(t: Tree, p: Path)
    requires ParentOf(t, p).At? && Target(t, p).At?
    ensures ParentOf(t, p).ino in t.names && Leaf(p) in t.names[ParentOf(t, p).ino]
            && t.names[ParentOf(t, p).ino][Leaf(p)] == Target(t, p).ino
  {
    hide Walk;
    WalkByParent(t, p);
  }

  /** The entry to move and its kind are the same after the destination went. */
  lemma StillMoves(t: Tree, u: Tree, nd: nat, nn: Name, od: nat, on: Name, i: nat, p: Path)
    requires Less(t, u, nd, nn) && ParentOf(t, p) == At(od) && Target(t, p) == At(i) && on == Leaf(p)
    requires t.names[nd][nn] != i && HasEntry(u, od, on)
    ensures u.names[od][on] == i && (i in u.names <==> i in t.names)
  {
    hide Linked, Walk;
    TargetIs(t, p);
    EntryKind(t, nd, nn);
  }
}
