/**
 * Inputs at which two laws of EXT2 fail (fs/ext2/write.c:217-320): a directory renamed
 * below itself, and a file with 65535 names that is linked once more.  The exact
 * conditions are Ext2Reach.MovedRooted and Ext2Rename.CountedTree.
 */
module Ext2Limits {
  import opened Ext2Volume
  import opened Ext2DirBlock
  import opened Ext2DirScan
  import opened Ext2Tree
  import opened Ext2Rename
  import opened Ext2Run
  import opened Ext2Reach

  /** A tree of n inodes with nothing but the root directory. */
  ghost function Bare(n: nat): Tree {
    Tree(seq(n, i => if i == ROOT then Directory else Free), seq(n, i => if i == ROOT then 2 else 0),
         map[ROOT := Dots(ROOT, ROOT)])
  }

  lemma BareLinked(n: nat)
    requires n > ROOT
    ensures Linked(Bare(n)) && Rooted(Bare(n))
  {
    assert DOT[0] == 46 && |DOT| != |DOTDOT|;
    RootLinked(Bare(n));
    assert Climb(Parents(Bare(n)), ROOT, 0) == ROOT;
  }

  // ---- a directory below itself ----

  const A: Name := [97]
  const B: Name := [98]
  const CHILD: nat := 3

  lemma ProperLetters()
    ensures Proper(A) && Proper(B) && A != B
  {
    assert A[0] == 97 && B[0] == 98 && DOT[0] == 46 && DOTDOT[0] == 46;
  }

  /** The root holds directory "a"; renaming "/a" to "/a/b" keeps every link count right and cuts it off. */
  lemma RenameCutsOff() returns (t: Tree)
    ensures Linked(t) && Rooted(t) && HasEntry(t, ROOT, A) && t.names[ROOT][A] == CHILD && t.names.Keys == {ROOT, CHILD}
    ensures B !in t.names[CHILD] && Proper(B) && ROOT < |t.links| && CHILD < |t.links|
    ensures Linked(Moved(t, ROOT, A, CHILD, B)) && !Rooted(Moved(t, ROOT, A, CHILD, B))
  {
    hide Linked, Rooted, Moved, Outside;
    ProperLetters();
    BareLinked(4);
    var r := Bare(4);
    MadeDirLinked(r, ROOT, A, CHILD);
    MadeDirRooted(r, ROOT, A, CHILD);
    t := MadeDir(r, ROOT, A, CHILD);
    MadeHas(r, A, CHILD);
    MovedLinked(t, ROOT, A, CHILD, B);
    MovedRooted(t, ROOT, A, CHILD, B);
    NotOutside(Parents(t), CHILD);
  }

  lemma MadeHas(r: Tree, n: Name, c: nat)
    requires r.names.Keys == {ROOT} && ROOT != c < |r.kinds| == |r.links| && ROOT < |r.links| && Proper(n)
    ensures var t := MadeDir(r, ROOT, n, c);
            && t.names.Keys == {ROOT, c} && HasEntry(t, ROOT, n) && t.names[ROOT][n] == c && t.names[c] == Dots(c, ROOT)
            && |t.links| == |r.links|
  {
  }

  lemma NotOutside(m: map<nat, nat>, i: nat)
    ensures !Outside(m, i, i)
  {
    assert Climb(m, i, 0) == i;
  }

  // ---- one name too many ----

  const FILE: nat := 5
  const SHARE: nat := 21845

  /** The k-th name: four letters from "a" to "p". */
  function Nth(k: nat): Name
    requires k < 0x1_0000
  {
    [97 + k / 4096, 97 + k / 256 % 16, 97 + k / 16 % 16, 97 + k % 16]
  }

  function Value(n: Name): int
    requires |n| == 4
  {
    4096 * (n[0] as int - 97) + 256 * (n[1] as int - 97) + 16 * (n[2] as int - 97) + (n[3] as int - 97)
  }

  /** Different numbers have different names. */
  lemma NthValue(k: nat)
    requires k < 0x1_0000
    ensures Value(Nth(k)) == k
  {
    var a, b := k / 16, k / 256;
    assert a / 16 == b && b / 16 == k / 4096;
  }

  lemma NthApart(j: nat, k: nat)
    requires j < 0x1_0000 && k < 0x1_0000 && j != k
    ensures Nth(j) != Nth(k)
  {
    hide Value;
    NthValue(j);
    NthValue(k);
  }

  lemma NthProper(k: nat)
    requires k < 0x1_0000
    ensures Proper(Nth(k)) && |Nth(k)| == 4
  {
    assert |DOT| == 1 && |DOTDOT| == 2;
  }

  /** The directory that gets the k-th name: a third each. */
  function Home(k: nat): nat { if k < SHARE then ROOT else if k < 2 * SHARE then 3 else 4 }

  /** How many of the first n names directory d has. */
  function Given(n: nat, d: nat): nat {
    var start := if d == ROOT then 0 else if d == 3 then SHARE else 2 * SHARE;
    if n <= start then 0 else if n - start < SHARE then n - start else SHARE
  }

  /** Three directories share the n names of the file. */
  ghost predicate Stage(t: Tree, n: nat) {
    && Linked(t) && |t.kinds| == |t.links| == 6 && t.kinds[FILE] == Other && t.links[FILE] == n
    && t.names.Keys == {ROOT, 3, 4}
    && forall d :: d in t.names ==> Spread(t.names[d], n, d)
  }

  /** The names still to come are not in the directory, and it holds at most its share. */
  ghost predicate Spread(m: map<Name, nat>, n: nat, d: nat) {
    |m| <= 4 + Given(n, d) && forall k: nat :: n <= k < 0x1_0000 ==> Nth(k) !in m
  }

  lemma SpreadStep(m: map<Name, nat>, n: nat, d: nat)
    requires Spread(m, n, d) && n < 3 * SHARE && (d == ROOT || d == 3 || d == 4)
    ensures Spread(if d == Home(n) then m[Nth(n) := FILE] else m, n + 1, d)
  {
    hide Nth;
    forall k: nat | n + 1 <= k < 0x1_0000 ensures Nth(k) != Nth(n) {
      NthApart(k, n);
    }
  }

  lemma StageStep(t: Tree, n: nat) returns (w: Tree)
    requires Stage(t, n) && 0 < n < 3 * SHARE
    ensures Stage(w, n + 1)
  {
    hide Linked, Spread, Nth;
    NthProper(n);
    var d := Home(n);
    assert d in t.names;
    NotYet(t.names[d], n, d);
    LinkAddedLinked(t, d, Nth(n), FILE);
    w := LinkAdded(t, d, Nth(n), FILE);
    forall e | e in w.names ensures Spread(w.names[e], n + 1, e) {
      SpreadStep(t.names[e], n, e);
    }
  }

  lemma NotYet(m: map<Name, nat>, n: nat, d: nat)
    requires Spread(m, n, d) && n < 0x1_0000
    ensures Nth(n) !in m
  {
    hide Nth;
  }

  const X: Name := [120]
  const Y: Name := [121]

  /** Two directories in the root. */
  lemma TwoDirs() returns (b: Tree)
    ensures Linked(b) && |b.kinds| == |b.links| == 6 && b.kinds[FILE] == Free && b.names.Keys == {ROOT, 3, 4}
    ensures b.names[ROOT] == Dots(ROOT, ROOT)[X := 3][Y := 4] && b.names[3] == Dots(3, ROOT)
            && b.names[4] == Dots(4, ROOT)
  {
    hide Linked, MadeDir, Bare;
    LettersProper();
    BareLinked(6);
    BareIs(6);
    var r := Bare(6);
    MadeDirLinked(r, ROOT, X, 3);
    var a := MadeDir(r, ROOT, X, 3);
    MadeIs(r, X, 3);
    MadeDirLinked(a, ROOT, Y, 4);
    b := MadeDir(a, ROOT, Y, 4);
    MadeIs(a, Y, 4);
  }

  /** ... and the file under its first name. */
  lemma FirstStage() returns (t: Tree)
    ensures Stage(t, 1)
  {
    hide Linked, Nth, Spread, Dots;
    NthProper(0);
    var b := TwoDirs();
    Beginning(b.names[ROOT], b.names[3], b.names[4]);
    CreatedLinked(b, ROOT, Nth(0), FILE);
    t := Created(b, ROOT, Nth(0), FILE);
  }

  lemma BareIs(n: nat)
    requires n > ROOT
    ensures var r := Bare(n);
            |r.kinds| == |r.links| == n && r.names == map[ROOT := Dots(ROOT, ROOT)]
              && forall i :: 0 <= i < n && i != ROOT ==> r.kinds[i] == Free
  {
  }

  lemma MadeIs(r: Tree, n: Name, c: nat)
    requires ROOT in r.names && ROOT != c < |r.kinds| == |r.links| && ROOT < |r.links|
    ensures var t := MadeDir(r, ROOT, n, c);
            && t.names == r.names[c := Dots(c, ROOT)][ROOT := r.names[ROOT][n := c]]
            && t.kinds == r.kinds[c := Directory] && |t.links| == |r.links|
  {
  }

  lemma Beginning(root: map<Name, nat>, x: map<Name, nat>, y: map<Name, nat>)
    requires root == Dots(ROOT, ROOT)[X := 3][Y := 4] && x == Dots(3, ROOT) && y == Dots(4, ROOT)
    ensures Nth(0) !in root && Spread(root[Nth(0) := FILE], 1, ROOT) && Spread(x, 1, 3) && Spread(y, 1, 4)
  {
    hide Nth;
    forall k: nat | k < 0x1_0000
        ensures Nth(k) !in root && Nth(k) !in x && Nth(k) !in y && (k > 0 ==> Nth(k) != Nth(0)) {
      NthProper(k);
      if k > 0 {
        NthApart(k, 0);
      }
    }
  }

  lemma LettersProper()
    ensures Proper(X) && Proper(Y) && X != Y && |X| == |Y| == 1
  {
    assert X[0] == 120 && Y[0] == 121 && DOT[0] == 46 && DOTDOT[0] == 46;
  }

  lemma {:induction false} Stages(n: nat) returns (t: Tree)
    requires 0 < n <= 3 * SHARE
    ensures Stage(t, n)
    decreases n
  {
    hide Stage;
    if n == 1 {
      t := FirstStage();
    } else {
      var s := Stages(n - 1);
      t := StageStep(s, n - 1);
    }
  }

  /** A file with 65535 names in three directories that have room: one more link makes its count 0. */
  lemma LinkCountWraps() returns (t: Tree, leaf: Name)
    ensures Linked(t) && |t.kinds| == |t.links| && FILE < |t.kinds| && t.kinds[FILE] == Other && t.links[FILE] == 0xFFFF
    ensures ROOT in t.names && leaf !in t.names[ROOT] && Proper(leaf) && forall d :: d in t.names ==>
              |t.names[d]| < 22780
    ensures var x := Bind(t, ROOT, leaf, FILE); !Linked(x.(links := x.links[FILE := Wrap16(t.links[FILE] + 1)]))
  {
    hide Linked, Nth, Bind;
    t := Stages(3 * SHARE);
    leaf := Nth(0xFFFF);
    NthProper(0xFFFF);
    assert Spread(t.names[ROOT], 3 * SHARE, ROOT);
    var x := Bind(t, ROOT, leaf, FILE);
    assert x.links == t.links by { BindLinks(t, ROOT, leaf, FILE); }
    CountedTree(t, x, x.(links := x.links[FILE := Wrap16(t.links[FILE] + 1)]), ROOT, leaf, FILE);
  }

  lemma BindLinks(t: Tree, d: nat, n: Name, i: nat)
    requires d in t.names
    ensures Bind(t, d, n, i).links == t.links
  {
  }
}
