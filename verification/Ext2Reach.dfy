/**
 * Which directories can be reached from the root (fs/ext2/write.c): every operation
 * keeps all of them reachable, a rename exactly if it does not move a directory
 * below itself, which the driver does not check.
 */
module Ext2Reach {
  import opened Ext2DirBlock
  import opened Ext2DirScan
  import opened Ext2Tree
  import opened Ext2Write

  // ---- climbing ".." ----

  ghost function Parents(t: Tree): map<nat, nat> {
    map d | d in t.names && DOTDOT in t.names[d] :: t.names[d][DOTDOT]
  }

  function Climb(m: map<nat, nat>, d: nat, n: nat): nat
    decreases n
  {
    if n == 0 || d !in m then d else Climb(m, m[d], n - 1)
  }

  ghost predicate Ends(m: map<nat, nat>, d: nat) { exists n: nat :: Climb(m, d, n) == ROOT }

  ghost predicate AllEnd(m: map<nat, nat>) { forall d :: d in m ==> Ends(m, d) }

  /** Every directory is below the root. */
  ghost predicate Rooted(t: Tree) {
    forall d :: d in t.names ==> Ends(Parents(t), d)
  }

  lemma RootedIs(t: Tree)
    requires Parents(t).Keys == t.names.Keys
    ensures Rooted(t) <==> AllEnd(Parents(t))
  {
    hide Ends;
  }

  /** Parents are directories, and the root is its own. */
  ghost predicate Closed(m: map<nat, nat>) {
    ROOT in m && m[ROOT] == ROOT && forall d :: d in m ==> m[d] in m
  }

  lemma {:induction false} ClimbIn(m: map<nat, nat>, d: nat, n: nat)
    requires Closed(m) && d in m
    ensures Climb(m, d, n) in m
    decreases n
  {
    if n > 0 {
      ClimbIn(m, m[d], n - 1);
    }
  }

  lemma {:induction false} ClimbOn(m: map<nat, nat>, d: nat, a: nat, b: nat)
    requires Closed(m) && d in m
    ensures Climb(m, d, a + b) == Climb(m, Climb(m, d, a), b)
    decreases a
  {
    if a > 0 {
      ClimbOn(m, m[d], a - 1, b);
    }
  }

  /** The climb from d meets c only after n steps, if at all. */
  ghost predicate Avoids(m: map<nat, nat>, d: nat, c: nat, n: nat) {
    forall k: nat :: k < n ==> Climb(m, d, k) != c
  }

  /** Where two parent maps agree, climbs agree. */
  lemma {:induction false} ClimbSame(m: map<nat, nat>, w: map<nat, nat>, d: nat, c: nat, n: nat)
    requires Closed(m) && d in m && Avoids(m, d, c, n) && forall x :: x in m && x != c ==> x in w && w[x] == m[x]
    ensures Climb(w, d, n) == Climb(m, d, n)
    decreases n
  {
    if n > 0 {
      assert Climb(m, d, 0) != c;
      forall k: nat | k < n - 1 ensures Climb(m, m[d], k) != c {
        assert Climb(m, d, k + 1) != c;
      }
      ClimbSame(m, w, m[d], c, n - 1);
    }
  }

  // ---- reachable means climbing ends ----

  predicate ProperPath(p: Path) { forall k :: 0 <= k < |p| ==> Proper(p[k]) }

  ghost predicate Reachable(t: Tree, d: nat) {
    exists p: Path :: ProperPath(p) && Walk(t, ROOT, p) == At(d)
  }

  /** The entry of a directory is in its parent. */
  lemma Holder(t: Tree, d: nat) returns (n: Name)
    requires Linked(t) && d in t.names && d != ROOT
    ensures DOTDOT in t.names[d] && HasEntry(t, t.names[d][DOTDOT], n) && t.names[t.names[d][DOTDOT]][n] == d
  {
    assert CountOk(t, d);
    var e :| e in Entries(t, d);
    n := e.1;
    assert HasEntry(t, e.0, n);
  }

  lemma ParentsClosed(t: Tree)
    requires Linked(t)
    ensures Closed(Parents(t)) && Parents(t).Keys == t.names.Keys
  {
    hide Linked, Parents;
    var m := Parents(t);
    forall d: nat ensures (d in m <==> d in t.names) && (d in m ==> m[d] in t.names) {
      ParentAt(t, d);
    }
    ParentAt(t, ROOT);
    assert m.Keys == t.names.Keys;
  }

  lemma ParentAt(t: Tree, d: nat)
    requires Linked(t)
    ensures d in Parents(t) <==> d in t.names
    ensures d in t.names ==> Parents(t)[d] in t.names
    ensures ROOT in t.names && Parents(t)[ROOT] == ROOT
  {
    hide Linked;
    DotDotIn(t, d);
    DotDotIn(t, ROOT);
    RootParent(t);
  }

  lemma RootParent(t: Tree)
    requires Linked(t)
    ensures ROOT in t.names && DOTDOT in t.names[ROOT] && t.names[ROOT][DOTDOT] == ROOT
  {
    hide CountOk;
  }

  lemma DotDotIn(t: Tree, d: nat)
    requires Linked(t)
    ensures ROOT in t.names && (d in t.names ==> DOTDOT in t.names[d] && t.names[d][DOTDOT] in t.names)
  {
    RootParent(t);
    if d in t.names && d != ROOT {
      hide Linked;
      var n := Holder(t, d);
    }
  }

  lemma {:induction false} ClimbWalk(t: Tree, d: nat, n: nat) returns (p: Path)
    requires Linked(t) && d in t.names && Climb(Parents(t), d, n) == ROOT
    ensures ProperPath(p) && Walk(t, ROOT, p) == At(d)
    decreases n
  {
    hide Linked, Walk;
    ParentsClosed(t);
    if d == ROOT {
      p := [];
      WalkHere(t, d);
    } else {
      var name := Holder(t, d);
      var up := Parents(t)[d];
      var q := ClimbWalk(t, up, n - 1);
      WalkSnoc(t, ROOT, q, name);
      p := q + [name];
    }
  }

  lemma WalkHere(t: Tree, d: nat)
    ensures Walk(t, d, []) == At(d)
  {
  }

  lemma {:induction false} WalkClimb(t: Tree, p: Path, d: nat) returns (n: nat)
    requires Linked(t) && d in t.names && ProperPath(p) && Walk(t, ROOT, p) == At(d)
    ensures Climb(Parents(t), d, n) == ROOT
    decreases |p|
  {
    hide Linked, Walk, Climb;
    if p == [] {
      n := 0;
      WalkHere(t, ROOT);
      ClimbZero(Parents(t), ROOT);
    } else {
      var q, name := p[..|p| - 1], p[|p| - 1];
      assert p == q + [name];
      WalkSnoc(t, ROOT, q, name);
      var up := Walk(t, ROOT, q).ino;
      UpIs(t, up, name);
      var k := WalkClimb(t, q, up);
      n := k + 1;
      ClimbStep(Parents(t), d, k);
    }
  }

  lemma UpIs(t: Tree, e: nat, n: Name)
    requires Linked(t) && HasEntry(t, e, n) && t.names[e][n] in t.names
    ensures t.names[e][n] in Parents(t) && Parents(t)[t.names[e][n]] == e
  {
    hide CountOk;
  }

  /** A directory can be reached from the root by names exactly if ".." leads back to the root. */
  lemma ReachableIff(t: Tree, d: nat)
    requires Linked(t) && d in t.names
    ensures Reachable(t, d) <==> Ends(Parents(t), d)
  {
    hide Linked, Walk, Climb;
    if Reachable(t, d) {
      var p: Path :| ProperPath(p) && Walk(t, ROOT, p) == At(d);
      var n := WalkClimb(t, p, d);
    }
    if Ends(Parents(t), d) {
      var n: nat :| Climb(Parents(t), d, n) == ROOT;
      var p := ClimbWalk(t, d, n);
    }
  }

  // ---- operations that move no directory ----

  lemma SameParents(t: Tree, w: Tree)
    requires Rooted(t) && Parents(w) == Parents(t) && w.names.Keys == t.names.Keys
    ensures Rooted(w)
  {
  }

  /** Creating a file or symlink, adding a link, removing a name. */
  lemma FilesRooted(t: Tree, d: nat, n: Name, i: nat)
    requires Linked(t) && Rooted(t) && d in t.names && Proper(n) && i < |t.kinds|
    ensures |t.kinds| == |t.links| && Rooted(Created(t, d, n, i)) && Rooted(LinkAdded(t, d, n, i))
    ensures HasEntry(t, d, n) && t.names[d][n] < |t.kinds| && t.links[t.names[d][n]] > 0 ==> Rooted(Unlinked(t, d, n))
  {
    hide Wired, CountOk, Rooted;
    BoundParents(t, d, n, i);
    CountsIgnored(Bind(t, d, n, i), Created(t, d, n, i));
    CountsIgnored(Bind(t, d, n, i), LinkAdded(t, d, n, i));
    SameParents(t, Created(t, d, n, i));
    SameParents(t, LinkAdded(t, d, n, i));
    if HasEntry(t, d, n) && t.names[d][n] < |t.kinds| && t.links[t.names[d][n]] > 0 {
      CountsIgnored(Unbind(t, d, n), Unlinked(t, d, n));
      SameParents(t, Unlinked(t, d, n));
    }
  }

  lemma BoundParents(t: Tree, d: nat, n: Name, i: nat)
    requires d in t.names && Proper(n)
    ensures Parents(Bind(t, d, n, i)) == Parents(t) && Parents(Unbind(t, d, n)) == Parents(t)
  {
  }

  lemma CountsIgnored(t: Tree, u: Tree)
    requires u.names == t.names
    ensures Parents(u) == Parents(t)
  {
  }

  // ---- a new directory, a removed one ----

  lemma AddedEnds(m: map<nat, nat>, c: nat, d: nat)
    requires Closed(m) && AllEnd(m) && c !in m && d in m
    ensures AllEnd(m[c := d])
  {
    hide Climb;
    var w := m[c := d];
    forall x | x in m ensures Ends(w, x) {
      assert Ends(m, x);
      var n: nat :| Climb(m, x, n) == ROOT;
      forall k: nat | k < n ensures Climb(m, x, k) != c {
        ClimbIn(m, x, k);
      }
      ClimbSame(m, w, x, c, n);
    }
    var n: nat :| Climb(w, d, n) == ROOT;
    ClimbStep(w, c, n);
  }

  lemma ClimbStep(m: map<nat, nat>, d: nat, n: nat)
    requires d in m
    ensures Climb(m, d, n + 1) == Climb(m, m[d], n)
  {
  }

  /** ext2_mkdir below a reachable directory. */
  lemma MadeDirRooted(t: Tree, d: nat, n: Name, i: nat)
    requires Linked(t) && Rooted(t) && d in t.names && n !in t.names[d] && Proper(n) && i < |t.kinds|
             && t.kinds[i] == Free
    ensures d < |t.links| == |t.kinds| && Rooted(MadeDir(t, d, n, i))
  {
    hide CountOk, Wired, Ends;
    ParentsClosed(t);
    MadeParents(t, d, n, i);
    RootedIs(t);
    AddedEnds(Parents(t), i, d);
    RootedIs(MadeDir(t, d, n, i));
  }

  lemma MadeParents(t: Tree, d: nat, n: Name, i: nat)
    requires Shaped(t) && d in t.names && n !in t.names[d] && Proper(n) && i < |t.kinds| && t.kinds[i] == Free
    ensures d < |t.links| == |t.kinds| && i !in t.names
    ensures Parents(MadeDir(t, d, n, i)) == Parents(t)[i := d] && MadeDir(t, d, n, i).names.Keys == t.names.Keys + {i}
  {
    var w := MadeDir(t, d, n, i);
    assert w.names[i] == Dots(i, d);
  }

  lemma {:induction false} ChildlessAvoided(m: map<nat, nat>, c: nat, x: nat, n: nat)
    requires Closed(m) && x in m && x != c && forall y :: y in m && y != c ==> m[y] != c
    ensures Avoids(m, x, c, n)
    decreases n
  {
    if n > 0 {
      ChildlessAvoided(m, c, m[x], n - 1);
      forall k: nat | k < n ensures Climb(m, x, k) != c {
        if k > 0 {
          assert Climb(m, x, k) == Climb(m, m[x], k - 1);
        }
      }
    }
  }

  /** ext2_rmdir of an empty directory. */
  lemma RemovedDirRooted(t: Tree, d: nat, n: Name)
    requires Linked(t) && Rooted(t) && HasEntry(t, d, n) && EmptyDir(t, t.names[d][n])
    ensures d < |t.links| && t.names[d][n] < |t.kinds| == |t.links| && Rooted(RemovedDir(t, d, n))
  {
    hide CountOk, Wired, AllEnd;
    var c, m := t.names[d][n], Parents(t);
    ParentsClosed(t);
    RemovedParents(t, d, n);
    RootedIs(t);
    OnlyEntry(t, d, n);
    forall y | y in m && y != c ensures m[y] != c {
      NotParent(t, d, n, y);
    }
    RemovedEnds(m, c);
    RootedIs(RemovedDir(t, d, n));
  }

  lemma RemovedEnds(m: map<nat, nat>, c: nat)
    requires Closed(m) && AllEnd(m) && forall y :: y in m && y != c ==> m[y] != c
    ensures AllEnd(m - {c})
  {
    hide Ends, Closed;
    var w := m - {c};
    forall x | x in w ensures Ends(w, x) {
      ChildlessEnds(m, w, c, x);
    }
  }

  lemma ChildlessEnds(m: map<nat, nat>, w: map<nat, nat>, c: nat, x: nat)
    requires Closed(m) && x in m && x != c && Ends(m, x) && w == m - {c} && forall y :: y in m && y != c ==> m[y] != c
    ensures Ends(w, x)
  {
    hide Climb, Avoids, Closed;
    var k: nat :| Climb(m, x, k) == ROOT;
    ChildlessAvoided(m, c, x, k);
    ClimbSame(m, w, x, c, k);
  }

  /** An empty directory is nobody's parent. */
  lemma NotParent(t: Tree, d: nat, n: Name, y: nat)
    requires Linked(t) && HasEntry(t, d, n) && EmptyDir(t, t.names[d][n]) && y in t.names && y != t.names[d][n]
    ensures y in Parents(t) && Parents(t)[y] != t.names[d][n]
  {
    hide CountOk, Wired;
    ParentsClosed(t);
    if y == ROOT {
      OnlyEntry(t, d, n);
    } else {
      var k := Holder(t, y);
    }
  }

  lemma RemovedParents(t: Tree, d: nat, n: Name)
    requires Linked(t) && HasEntry(t, d, n) && EmptyDir(t, t.names[d][n])
    ensures d < |t.links| && t.names[d][n] < |t.kinds| == |t.links|
    ensures var w := RemovedDir(t, d, n);
            Parents(w) == Parents(t) - {t.names[d][n]} && w.names.Keys == t.names.Keys - {t.names[d][n]}
  {
    hide CountOk, Wired;
    BoundParents(t, d, n, 0);
  }

  // ---- a directory moved ----

  /** The new parent is not at or below the moved directory. */
  ghost predicate Outside(m: map<nat, nat>, i: nat, p: nat) {
    forall n: nat :: Climb(m, p, n) != i
  }

  /** Giving i the parent p keeps every climb ending exactly if p lies outside i. */
  lemma MovedEnds(m: map<nat, nat>, i: nat, p: nat)
    requires Closed(m) && AllEnd(m) && i in m && p in m && i != ROOT
    ensures AllEnd(m[i := p]) <==> Outside(m, i, p)
  {
    hide Climb;
    var w := m[i := p];
    if Outside(m, i, p) {
      EndsSame(m, w, p, i);
      EndsStep(w, i);
      forall x | x in m ensures Ends(w, x) {
        EndsOver(m, w, i, x);
      }
    } else {
      var n: nat :| Climb(m, p, n) == i;
      if AllEnd(w) {
        assert Ends(w, i);
        var k: nat :| Climb(w, i, k) == ROOT;
        var f := FirstMeet(m, p, i, n);
        ClimbSame(m, w, p, i, f);
        forall l: nat | l <= f ensures Climb(w, p, l) != ROOT {
          NoRoot(m, w, i, p, f, l);
        }
        Trapped(w, i, p, f, k);
        assert false;
      }
    }
  }

  lemma EndsSame(m: map<nat, nat>, w: map<nat, nat>, x: nat, c: nat)
    requires Closed(m) && x in m && Ends(m, x) && Outside(m, c, x) && forall y :: y in m && y != c ==>
               y in w && w[y] == m[y]
    ensures Ends(w, x)
  {
    hide Climb;
    var n: nat :| Climb(m, x, n) == ROOT;
    ClimbSame(m, w, x, c, n);
  }

  lemma EndsStep(m: map<nat, nat>, d: nat)
    requires d in m && Ends(m, m[d])
    ensures Ends(m, d)
  {
    hide Climb;
    var n: nat :| Climb(m, m[d], n) == ROOT;
    ClimbStep(m, d, n);
  }

  /** A climb ends by itself, or at i, from where the end is known. */
  lemma EndsOver(m: map<nat, nat>, w: map<nat, nat>, i: nat, x: nat)
    requires Closed(m) && x in m && Ends(m, x) && Ends(w, i)
             && (forall y :: y in m && y != i ==> y in w && w[y] == m[y]) && Closed(w)
    ensures Ends(w, x)
  {
    hide Climb;
    if Outside(m, i, x) {
      EndsSame(m, w, x, i);
    } else {
      var n: nat :| Climb(m, x, n) == i;
      var f := FirstMeet(m, x, i, n);
      ClimbSame(m, w, x, i, f);
      var k: nat :| Climb(w, i, k) == ROOT;
      if x in w {
        ClimbOn(w, x, f, k);
      }
    }
  }

  lemma {:induction false} FirstMeet(m: map<nat, nat>, x: nat, c: nat, n: nat) returns (f: nat)
    requires Climb(m, x, n) == c
    ensures f <= n && Climb(m, x, f) == c && Avoids(m, x, c, f)
    decreases n
  {
    hide Climb;
    if k: nat :| k < n && Climb(m, x, k) == c {
      f := FirstMeet(m, x, c, k);
    } else {
      f := n;
    }
  }

  /** Below itself a directory climbs round and round. */
  lemma {:induction false} Trapped(w: map<nat, nat>, i: nat, p: nat, f: nat, k: nat)
    requires Closed(w) && i in w && w[i] == p && i != ROOT && Climb(w, p, f) == i && forall l: nat :: l <= f ==>
               Climb(w, p, l) != ROOT
    ensures Climb(w, i, k) != ROOT
    decreases k
  {
    hide Climb;
    ClimbZero(w, i);
    if k > 0 {
      ClimbStep(w, i, k - 1);
      if k - 1 > f {
        ClimbOn(w, p, f, k - 1 - f);
        Trapped(w, i, p, f, k - 1 - f);
      }
    }
  }

  /** On the way from p up to i there is no root. */
  lemma NoRoot(m: map<nat, nat>, w: map<nat, nat>, i: nat, p: nat, f: nat, l: nat)
    requires Closed(m) && w == m[i := p] && p in m && i != ROOT && Climb(m, p, f) == i && Avoids(m, p, i, f) && l <= f
    ensures Climb(w, p, l) != ROOT
  {
    hide Climb;
    assert Avoids(m, p, i, l);
    ClimbSame(m, w, p, i, l);
    if Climb(m, p, l) == ROOT {
      StuckAtRoot(m, p, l, f);
      assert false;
    }
  }

  lemma ClimbZero(m: map<nat, nat>, d: nat)
    ensures Climb(m, d, 0) == d
  {
  }

  /** From the root there is no way down. */
  lemma StuckAtRoot(m: map<nat, nat>, p: nat, a: nat, f: nat)
    requires Closed(m) && p in m && Climb(m, p, a) == ROOT && a <= f
    ensures Climb(m, p, f) == ROOT
  {
    hide Climb;
    ClimbOn(m, p, a, f - a);
    RootStays(m, f - a);
  }

  lemma {:induction false} RootStays(m: map<nat, nat>, n: nat)
    requires Closed(m)
    ensures Climb(m, ROOT, n) == ROOT
    decreases n
  {
    if n > 0 {
      RootStays(m, n - 1);
    }
  }

  /** ext2_rename keeps every directory reachable exactly if it does not move one below itself. */
  lemma MovedRooted(t: Tree, od: nat, on: Name, nd: nat, nn: Name)
    requires Linked(t) && Rooted(t) && HasEntry(t, od, on) && nd in t.names && nn !in t.names[nd] && Proper(nn)
    ensures od < |t.links| && nd < |t.links|
    ensures var i := t.names[od][on]; Rooted(Moved(t, od, on, nd, nn)) <==>
              (i in t.names && od != nd ==> Outside(Parents(t), i, nd))
  {
    hide Linked, Rooted, Outside, AllEnd, Parents, Closed, Moved;
    var i, m := t.names[od][on], Parents(t);
    ParentsClosed(t);
    MovedParents(t, od, on, nd, nn);
    RootedIs(t);
    if i in t.names && od != nd {
      OnlyEntry(t, od, on);
      MovedEnds(m, i, nd);
    }
    RootedIs(Moved(t, od, on, nd, nn));
  }

  lemma MovedParents(t: Tree, od: nat, on: Name, nd: nat, nn: Name)
    requires Linked(t) && HasEntry(t, od, on) && nd in t.names && nn !in t.names[nd] && Proper(nn)
    ensures od < |t.links| && nd < |t.links| && Moved(t, od, on, nd, nn).names.Keys == t.names.Keys
    ensures var i := t.names[od][on];
            Parents(Moved(t, od, on, nd, nn)) == if i in t.names && od != nd then Parents(t)[i := nd] else Parents(t)
  {
    hide Parents, Bind, Unbind, Wired, CountOk, Adopted;
    var i := t.names[od][on];
    var u := Bind(t, nd, nn, i);
    BoundParents(t, nd, nn, i);
    BoundKeys(t, nd, nn, i);
    BoundParents(u, od, on, i);
    BoundKeys(u, od, on, i);
    var w := Unbind(u, od, on);
    if i in t.names && od != nd {
      AdoptedParents(w, i, nd);
    }
    CountsIgnored(MovedNames(t, od, on, nd, nn), Moved(t, od, on, nd, nn));
  }

  lemma BoundKeys(t: Tree, d: nat, n: Name, i: nat)
    requires d in t.names
    ensures Bind(t, d, n, i).names.Keys == t.names.Keys == Unbind(t, d, n).names.Keys
  {
  }

  lemma AdoptedParents(t: Tree, i: nat, p: nat)
    requires i in t.names
    ensures Parents(Adopted(t, i, p)) == Parents(t)[i := p] && Adopted(t, i, p).names.Keys == t.names.Keys
  {
  }
}
