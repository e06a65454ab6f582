/**
 * The namespace of a volume, away from its bytes: which names each directory
 * binds, what kind each inode is and what its link count says.  The lemmas here
 * are the link-count arguments for each operation of fs/ext2/write.c.
 */
module Ext2Tree {
  import opened Ext2DirBlock
  import opened Ext2DirScan

  datatype Kind = Free | Directory | Other

  datatype Tree = Tree(kinds: seq<Kind>, links: seq<nat>, names: map<nat, map<Name, nat>>)

  const ROOT: nat := 2

  predicate Proper(n: Name) { n != DOT && n != DOTDOT }

  /** A directory entry: directory d binds n. */
  ghost predicate HasEntry(t: Tree, d: nat, n: Name) {
    d in t.names && n in t.names[d] && Proper(n)
  }

  /** The entries naming inode i, "." and ".." aside. */
  ghost function Entries(t: Tree, i: nat): set<(nat, Name)> {
    set d, n | d in t.names && n in t.names[d] && Proper(n) && t.names[d][n] == i :: (d, n)
  }

  /** The entries of directory d that name directories. */
  ghost function ChildDirs(t: Tree, d: nat): set<Name>
    requires d in t.names
  {
    set n | n in t.names[d] && Proper(n) && IsDirectory(t, t.names[d][n])
  }

  predicate IsDirectory(t: Tree, i: nat) { i < |t.kinds| && t.kinds[i] == Directory }

  ghost predicate Shaped(t: Tree) {
    && |t.links| == |t.kinds|
    && (forall d: nat :: d in t.names <==> IsDirectory(t, d))
    && IsDirectory(t, ROOT)
  }

  /** Entries lead to live inodes. */
  ghost predicate TargetsLive(t: Tree) {
    forall d, n :: HasEntry(t, d, n) ==> t.names[d][n] < |t.kinds| && t.kinds[t.names[d][n]] != Free
  }

  /** Every directory has "." leading home, and a "..". */
  ghost predicate DotsOk(t: Tree) {
    forall d :: d in t.names ==> DOT in t.names[d] && t.names[d][DOT] == d && DOTDOT in t.names[d]
  }

  /** The ".." of a directory names the directory that holds its entry. */
  ghost predicate ParentsOk(t: Tree)
    requires DotsOk(t)
  {
    forall d, n :: HasEntry(t, d, n) && t.names[d][n] in t.names ==> t.names[t.names[d][n]][DOTDOT] == d
  }

  ghost predicate Wired(t: Tree)
    requires Shaped(t)
  {
    TargetsLive(t) && DotsOk(t) && ParentsOk(t) && t.names[ROOT][DOTDOT] == ROOT
  }

  /** What a link count means. */
  ghost predicate CountOk(t: Tree, i: nat)
    requires Shaped(t) && i < |t.kinds|
  {
    match t.kinds[i]
    case Free => true
    case Directory => t.links[i] == 2 + |ChildDirs(t, i)| && |Entries(t, i)| == if i == ROOT then 0 else 1
    case Other => t.links[i] == |Entries(t, i)|
  }

  ghost predicate Linked(t: Tree) {
    Shaped(t) && Wired(t) && forall i: nat :: i < |t.kinds| ==> CountOk(t, i)
  }

  // ---- binding and unbinding one name ----

  ghost function Bind(t: Tree, d: nat, n: Name, i: nat): Tree
    requires d in t.names
  {
    var m: map<Name, nat> := t.names[d][n := i];
    t.(names := t.names[d := m])
  }

  ghost function Unbind(t: Tree, d: nat, n: Name): Tree
    requires d in t.names
  {
    var m: map<Name, nat> := t.names[d] - {n};
    t.(names := t.names[d := m])
  }

  lemma BindEntries(t: Tree, d: nat, n: Name, i: nat, j: nat)
    requires d in t.names && n !in t.names[d] && Proper(n)
    ensures Entries(Bind(t, d, n, i), j) == if i == j then Entries(t, j) + {(d, n)} else Entries(t, j)
    ensures (d, n) !in Entries(t, j)
  {
  }

  lemma BindChildren(t: Tree, d: nat, n: Name, i: nat, e: nat)
    requires d in t.names && n !in t.names[d] && Proper(n) && e in t.names
    ensures ChildDirs(Bind(t, d, n, i), e) == if d == e && IsDirectory(t, i) then ChildDirs(t, e) + {n}
            else ChildDirs(t, e)
    ensures d == e ==> n !in ChildDirs(t, e)
  {
  }

  lemma UnbindEntries(t: Tree, d: nat, n: Name, j: nat)
    requires HasEntry(t, d, n)
    ensures Entries(Unbind(t, d, n), j) == Entries(t, j) - {(d, n)}
    ensures (d, n) in Entries(t, j) <==> t.names[d][n] == j
  {
  }

  lemma UnbindChildren(t: Tree, d: nat, n: Name, e: nat)
    requires HasEntry(t, d, n) && e in t.names
    ensures ChildDirs(Unbind(t, d, n), e) == if d == e then ChildDirs(t, e) - {n} else ChildDirs(t, e)
    ensures n in ChildDirs(t, d) <==> IsDirectory(t, t.names[d][n])
  {
  }

  /** The bindings of a tree after one more. */
  lemma BindHas(t: Tree, d: nat, n: Name, i: nat, e: nat, m: Name)
    requires d in t.names && n !in t.names[d] && Proper(n)
    ensures HasEntry(Bind(t, d, n, i), e, m) <==> (e == d && m == n) || HasEntry(t, e, m)
    ensures HasEntry(Bind(t, d, n, i), e, m) ==>
              Bind(t, d, n, i).names[e][m] == if e == d && m == n then i else t.names[e][m]
    ensures e in t.names && !Proper(m) ==>
              (m in Bind(t, d, n, i).names[e] <==> m in t.names[e])
                && (m in t.names[e] ==> Bind(t, d, n, i).names[e][m] == t.names[e][m])
  {
  }

  lemma BindWired(t: Tree, d: nat, n: Name, i: nat)
    requires Shaped(t) && Wired(t) && d in t.names && n !in t.names[d] && Proper(n)
    requires i < |t.kinds| && t.kinds[i] != Free && (i in t.names ==> t.names[i][DOTDOT] == d)
    ensures Shaped(Bind(t, d, n, i)) && Wired(Bind(t, d, n, i))
  {
    var w := Bind(t, d, n, i);
    assert Shaped(w);
    forall e, m ensures HasEntry(w, e, m) <==> (e == d && m == n) || HasEntry(t, e, m) {
      BindHas(t, d, n, i, e, m);
    }
    assert TargetsLive(w);
    assert DotsOk(w);
    forall e, m | HasEntry(w, e, m) && w.names[e][m] in w.names ensures w.names[w.names[e][m]][DOTDOT] == e {
      BindHas(t, d, n, i, e, m);
      BindHas(t, d, n, i, w.names[e][m], DOTDOT);
    }
  }

  lemma UnbindWired(t: Tree, d: nat, n: Name)
    requires Shaped(t) && Wired(t) && HasEntry(t, d, n)
    ensures Shaped(Unbind(t, d, n)) && Wired(Unbind(t, d, n))
  {
    var w := Unbind(t, d, n);
    assert Shaped(w);
    forall e, m | HasEntry(w, e, m) ensures HasEntry(t, e, m) && w.names[e][m] == t.names[e][m] {
    }
    UnbindDots(t, d, n);
    hide Unbind;
    assert TargetsLive(w);
    assert ParentsOk(w);
  }

  lemma UnbindDots(t: Tree, d: nat, n: Name)
    requires d in t.names && DotsOk(t) && Proper(n)
    ensures DotsOk(Unbind(t, d, n)) && forall e :: e in t.names ==>
              e in Unbind(t, d, n).names && Unbind(t, d, n).names[e][DOTDOT] == t.names[e][DOTDOT]
  {
  }

  /** Nothing names a free inode. */
  lemma NoEntries(t: Tree, i: nat)
    requires Linked(t) && i < |t.kinds| && t.kinds[i] == Free
    ensures Entries(t, i) == {}
  {
    hide CountOk;
    forall d, n | d in t.names && n in t.names[d] && Proper(n) ensures t.names[d][n] != i {
      assert HasEntry(t, d, n);
    }
  }

  /** An entry naming directory j is its only one, and j's ".." leads back. */
  lemma OnlyEntry(t: Tree, d: nat, n: Name)
    requires Linked(t) && HasEntry(t, d, n) && t.names[d][n] in t.names
    ensures Entries(t, t.names[d][n]) == {(d, n)} && t.names[d][n] != ROOT
  {
    var j := t.names[d][n];
    assert CountOk(t, j);
    assert (d, n) in Entries(t, j);
    if e :| e in Entries(t, j) && e != (d, n) {
      assert {e, (d, n)} <= Entries(t, j);
      assert |{e, (d, n)}| == 2;
      SubsetSize({e, (d, n)}, Entries(t, j));
      assert false;
    }
  }

  lemma {:induction false} SubsetSize<T>(a: set<T>, b: set<T>)
    requires a <= b
    ensures |a| <= |b|
  {
    if a != {} {
      var x :| x in a;
      SubsetSize(a - {x}, b - {x});
    }
  }

  /** Entries and child directories depend on the names, and on the kinds of named inodes. */
  lemma NamesOnly(t: Tree, u: Tree, j: nat)
    requires u.names == t.names && |u.kinds| == |t.kinds|
    requires forall k: nat :: k < |t.kinds| ==> (u.kinds[k].Directory? <==> t.kinds[k].Directory?)
    ensures Entries(u, j) == Entries(t, j)
    ensures j in t.names ==> ChildDirs(u, j) == ChildDirs(t, j)
  {
  }

  // ---- operations ----

  /** ext2_create of a file or symlink: a fresh inode with one link and one name. */
  ghost function Created(t: Tree, d: nat, n: Name, i: nat): Tree
    requires d in t.names && i < |t.kinds| == |t.links|
  {
    Bind(t.(kinds := t.kinds[i := Other], links := t.links[i := 1]), d, n, i)
  }

  lemma CreatedLinked(t: Tree, d: nat, n: Name, i: nat)
    requires Linked(t) && d in t.names && n !in t.names[d] && Proper(n) && i < |t.kinds| && t.kinds[i] == Free
    ensures Linked(Created(t, d, n, i))
  {
    var u := t.(kinds := t.kinds[i := Other], links := t.links[i := 1]);
    assert Wired(u) by { assert forall e, m :: HasEntry(u, e, m) <==> HasEntry(t, e, m); }
    BindWired(u, d, n, i);
    hide Wired;
    forall j: nat | j < |t.kinds| ensures CountOk(Created(t, d, n, i), j) {
      CreatedCount(t, d, n, i, j);
    }
  }

  lemma CreatedCount(t: Tree, d: nat, n: Name, i: nat, j: nat)
    requires Linked(t) && d in t.names && n !in t.names[d] && Proper(n) && i < |t.kinds| && t.kinds[i] == Free
             && j < |t.kinds|
    requires Shaped(Created(t, d, n, i))
    ensures CountOk(Created(t, d, n, i), j)
  {
    var u := t.(kinds := t.kinds[i := Other], links := t.links[i := 1]);
    NoEntries(t, i);
    hide Wired, Entries, ChildDirs;
    assert CountOk(t, j);
    BindEntries(u, d, n, i, j);
    if j in t.names {
      BindChildren(u, d, n, i, j);
      assert j != i;
    }
    SameNames(t, u, i, j);
  }

  /** Entries and child directories read the kinds of named inodes only. */
  lemma SameNames(t: Tree, u: Tree, i: nat, j: nat)
    requires u.names == t.names && |u.kinds| == |t.kinds| && Entries(t, i) == {}
    requires forall k: nat :: k < |t.kinds| && k != i ==> u.kinds[k] == t.kinds[k]
    ensures Entries(u, j) == Entries(t, j)
    ensures j in t.names ==> ChildDirs(u, j) == ChildDirs(t, j)
  {
    if j in t.names {
      forall n | n in t.names[j] && Proper(n) ensures t.names[j][n] != i {
        assert (j, n) !in Entries(t, i);
      }
    }
  }

  /** ext2_link: one more name and one more link (the count fits in 16 bits). */
  ghost function LinkAdded(t: Tree, d: nat, n: Name, i: nat): Tree
    requires d in t.names && i < |t.links|
  {
    Bind(t.(links := t.links[i := t.links[i] + 1]), d, n, i)
  }

  /** Shape and wiring do not read the link counts. */
  lemma CountsUnread(t: Tree, u: Tree)
    requires Shaped(t) && Wired(t) && u == t.(links := u.links) && |u.links| == |t.links|
    ensures Shaped(u) && Wired(u)
  {
    assert forall e, m :: HasEntry(u, e, m) <==> HasEntry(t, e, m);
  }

  lemma LinkAddedLinked(t: Tree, d: nat, n: Name, i: nat)
    requires Linked(t) && d in t.names && n !in t.names[d] && Proper(n) && i < |t.kinds| && t.kinds[i] == Other
    ensures Linked(LinkAdded(t, d, n, i))
  {
    hide CountOk, Wired;
    var u := t.(links := t.links[i := t.links[i] + 1]);
    CountsUnread(t, u);
    BindWired(u, d, n, i);
    assert LinkAdded(t, d, n, i).kinds == t.kinds;
    hide Bind;
    forall j: nat | j < |t.kinds| ensures CountOk(LinkAdded(t, d, n, i), j) {
      LinkAddedCount(t, d, n, i, j);
    }
  }

  lemma LinkAddedCount(t: Tree, d: nat, n: Name, i: nat, j: nat)
    requires Linked(t) && d in t.names && n !in t.names[d] && Proper(n) && i < |t.kinds| && t.kinds[i] == Other
    requires Shaped(LinkAdded(t, d, n, i)) && j < |t.kinds|
    ensures CountOk(LinkAdded(t, d, n, i), j)
  {
    hide Wired, Entries, ChildDirs;
    var u := t.(links := t.links[i := t.links[i] + 1]);
    assert CountOk(t, j);
    BindEntries(u, d, n, i, j);
    NamesOnly(t, u, j);
    if j in t.names {
      BindChildren(u, d, n, i, j);
    }
  }

  /** ext2_create of a directory: "." and "..", one name in the parent, and the parent's count up by one. */
  ghost function Dots(i: nat, parent: nat): map<Name, nat> {
    map[DOT := i, DOTDOT := parent]
  }

  ghost function WithDir(t: Tree, d: nat, i: nat): Tree
    requires d < |t.links| && i < |t.kinds| == |t.links|
  {
    Tree(t.kinds[i := Directory], t.links[i := 2][d := t.links[d] + 1], t.names[i := Dots(i, d)])
  }

  ghost function MadeDir(t: Tree, d: nat, n: Name, i: nat): Tree
    requires d in t.names && d < |t.links| && i < |t.kinds| == |t.links|
  {
    Bind(WithDir(t, d, i), d, n, i)
  }

  lemma WithDirHas(t: Tree, d: nat, i: nat, e: nat, m: Name)
    requires Linked(t) && d in t.names && i < |t.kinds| && t.kinds[i] == Free
    ensures HasEntry(WithDir(t, d, i), e, m) <==> HasEntry(t, e, m)
    ensures HasEntry(t, e, m) ==> WithDir(t, d, i).names[e][m] == t.names[e][m] != i && e != i
  {
    hide CountOk;
    NoEntries(t, i);
    if HasEntry(t, e, m) {
      assert (e, m) !in Entries(t, i);
    }
  }

  lemma WithDirWired(t: Tree, d: nat, i: nat)
    requires Linked(t) && d in t.names && i < |t.kinds| && t.kinds[i] == Free
    ensures Shaped(WithDir(t, d, i)) && Wired(WithDir(t, d, i))
  {
    var u := WithDir(t, d, i);
    assert Shaped(u) && DotsOk(u) by { hide CountOk; }
    hide CountOk, WithDir, Shaped;
    WithDirTargets(t, d, i);
    WithDirParents(t, d, i);
    WithDirRoot(t, d, i);
  }

  lemma WithDirRoot(t: Tree, d: nat, i: nat)
    requires Linked(t) && d in t.names && i < |t.kinds| && t.kinds[i] == Free
    ensures ROOT in WithDir(t, d, i).names && DOTDOT in WithDir(t, d, i).names[ROOT]
            && WithDir(t, d, i).names[ROOT][DOTDOT] == ROOT
  {
    hide CountOk;
  }

  lemma WithDirTargets(t: Tree, d: nat, i: nat)
    requires Linked(t) && d in t.names && i < |t.kinds| && t.kinds[i] == Free
    ensures TargetsLive(WithDir(t, d, i))
  {
    hide CountOk;
    var u := WithDir(t, d, i);
    forall e, m | HasEntry(u, e, m) ensures u.names[e][m] < |u.kinds| && u.kinds[u.names[e][m]] != Free {
      WithDirHas(t, d, i, e, m);
    }
  }

  lemma WithDirParents(t: Tree, d: nat, i: nat)
    requires Linked(t) && d in t.names && i < |t.kinds| && t.kinds[i] == Free
    requires DotsOk(WithDir(t, d, i))
    ensures ParentsOk(WithDir(t, d, i))
  {
    hide CountOk;
    var u := WithDir(t, d, i);
    forall e, m | HasEntry(u, e, m) && u.names[e][m] in u.names ensures u.names[u.names[e][m]][DOTDOT] == e {
      WithDirHas(t, d, i, e, m);
    }
  }

  lemma WithDirSets(t: Tree, d: nat, i: nat, j: nat)
    requires Linked(t) && d in t.names && i < |t.kinds| && t.kinds[i] == Free
    ensures Entries(WithDir(t, d, i), j) == Entries(t, j)
    ensures ChildDirs(WithDir(t, d, i), i) == {}
    ensures j in t.names ==> ChildDirs(WithDir(t, d, i), j) == ChildDirs(t, j)
  {
    hide CountOk, Wired;
    NoEntries(t, i);
    var u := WithDir(t, d, i);
    if j in t.names {
      forall n | n in t.names[j] && Proper(n) ensures t.names[j][n] != i {
        assert (j, n) !in Entries(t, i);
      }
    }
  }

  lemma MadeDirLinked(t: Tree, d: nat, n: Name, i: nat)
    requires Linked(t) && d in t.names && n !in t.names[d] && Proper(n) && i < |t.kinds| && t.kinds[i] == Free
    ensures d < |t.links| && Linked(MadeDir(t, d, n, i))
  {
    var u := WithDir(t, d, i);
    WithDirWired(t, d, i);
    BindWired(u, d, n, i);
    hide Wired, CountOk, Bind;
    forall j: nat | j < |t.kinds| ensures CountOk(MadeDir(t, d, n, i), j) {
      MadeDirCount(t, d, n, i, j);
    }
  }

  lemma MadeDirCount(t: Tree, d: nat, n: Name, i: nat, j: nat)
    requires Linked(t) && d in t.names && n !in t.names[d] && Proper(n) && i < |t.kinds| && t.kinds[i] == Free
    requires Shaped(MadeDir(t, d, n, i)) && j < |t.kinds|
    ensures CountOk(MadeDir(t, d, n, i), j)
  {
    hide Wired, Entries, ChildDirs;
    var u := WithDir(t, d, i);
    NoEntries(t, i);
    assert CountOk(t, j);
    WithDirSets(t, d, i, j);
    BindEntries(u, d, n, i, j);
    if j in u.names {
      BindChildren(u, d, n, i, j);
    }
  }

  /** ext2_unlink of a file: one name and one link less; the last link frees the inode. */
  ghost function Unlinked(t: Tree, d: nat, n: Name): Tree
    requires HasEntry(t, d, n) && t.names[d][n] < |t.links| == |t.kinds| && t.links[t.names[d][n]] > 0
  {
    var i := t.names[d][n];
    var u := Unbind(t, d, n);
    if t.links[i] == 1 then u.(links := u.links[i := 0], kinds := u.kinds[i := Free])
    else u.(links := u.links[i := u.links[i] - 1])
  }

  lemma UnlinkedLinked(t: Tree, d: nat, n: Name)
    requires Linked(t) && HasEntry(t, d, n) && t.names[d][n] < |t.kinds| && t.kinds[t.names[d][n]] == Other
    ensures t.links[t.names[d][n]] > 0 && Linked(Unlinked(t, d, n))
  {
    var i := t.names[d][n];
    var u := Unbind(t, d, n);
    UnbindWired(t, d, n);
    assert CountOk(t, i);
    UnbindEntries(t, d, n, i);
    assert t.links[i] == |Entries(u, i)| + 1;
    var w := Unlinked(t, d, n);
    if t.links[i] == 1 {
      FreedWired(u, i);
    } else {
      CountsUnread(u, w);
    }
    hide Wired, CountOk;
    forall j: nat | j < |t.kinds| ensures CountOk(w, j) {
      UnlinkedCount(t, d, n, j);
    }
  }

  lemma FreedWired(u: Tree, i: nat)
    requires Shaped(u) && Wired(u) && i < |u.kinds| && u.kinds[i] == Other && |Entries(u, i)| == 0
    ensures var w := u.(links := u.links[i := 0], kinds := u.kinds[i := Free]); Shaped(w) && Wired(w)
  {
    var w := u.(links := u.links[i := 0], kinds := u.kinds[i := Free]);
    assert Shaped(w);
    assert forall e, m :: HasEntry(w, e, m) <==> HasEntry(u, e, m);
    forall e, m | HasEntry(w, e, m) ensures w.names[e][m] < |w.kinds| && w.kinds[w.names[e][m]] != Free {
      assert HasEntry(u, e, m);
      assert (e, m) !in Entries(u, i);
    }
  }

  lemma UnlinkedCount(t: Tree, d: nat, n: Name, j: nat)
    requires Linked(t) && HasEntry(t, d, n) && t.names[d][n] < |t.kinds| && t.kinds[t.names[d][n]] == Other
    requires t.links[t.names[d][n]] > 0 && Shaped(Unlinked(t, d, n)) && j < |t.kinds|
    ensures CountOk(Unlinked(t, d, n), j)
  {
    hide Wired, Entries, ChildDirs;
    var i := t.names[d][n];
    var u, w := Unbind(t, d, n), Unlinked(t, d, n);
    assert CountOk(t, j);
    UnbindEntries(t, d, n, j);
    NamesOnly(u, w, j);
    if j in t.names {
      UnbindChildren(t, d, n, j);
    }
  }

  /** ext2_unlink of an empty directory: its name, its names and its inode go, and the parent's count drops. */
  ghost function WithoutDir(t: Tree, d: nat, i: nat): Tree
    requires d < |t.links| && i < |t.kinds| == |t.links|
  {
    Tree(t.kinds[i := Free], t.links[i := 0][d := if t.links[d] > 0 then t.links[d] - 1 else 0], t.names - {i})
  }

  ghost function RemovedDir(t: Tree, d: nat, n: Name): Tree
    requires HasEntry(t, d, n) && d < |t.links| && t.names[d][n] < |t.kinds| == |t.links|
  {
    WithoutDir(Unbind(t, d, n), d, t.names[d][n])
  }

  ghost predicate EmptyDir(t: Tree, i: nat) {
    i in t.names && forall n :: n in t.names[i] ==> !Proper(n)
  }

  /** An empty directory with no name left can go. */
  lemma WithoutDirWired(u: Tree, d: nat, i: nat)
    requires Shaped(u) && Wired(u) && d in u.names && EmptyDir(u, i) && i != ROOT && Entries(u, i) == {}
    ensures Shaped(WithoutDir(u, d, i)) && Wired(WithoutDir(u, d, i))
  {
    var w := WithoutDir(u, d, i);
    assert Shaped(w);
    assert DotsOk(w);
    forall e, m | HasEntry(w, e, m)
      ensures HasEntry(u, e, m) && w.names[e][m] == u.names[e][m] && u.names[e][m] != i
    {
      assert (e, m) !in Entries(u, i);
    }
    assert TargetsLive(w);
    assert ParentsOk(w);
  }

  lemma WithoutDirSets(u: Tree, d: nat, i: nat, j: nat)
    requires Shaped(u) && d in u.names && EmptyDir(u, i) && Entries(u, i) == {} && i < |u.kinds|
    ensures Entries(WithoutDir(u, d, i), j) == Entries(u, j)
    ensures j in u.names && j != i ==> ChildDirs(WithoutDir(u, d, i), j) == ChildDirs(u, j)
  {
    if j in u.names {
      forall n | n in u.names[j] && Proper(n) ensures u.names[j][n] != i {
        assert (j, n) !in Entries(u, i);
      }
    }
  }

  lemma RemovedDirLinked(t: Tree, d: nat, n: Name)
    requires Linked(t) && HasEntry(t, d, n) && EmptyDir(t, t.names[d][n])
    ensures d < |t.links| && t.names[d][n] < |t.kinds| && Linked(RemovedDir(t, d, n)) && d != t.names[d][n]
  {
    var i := t.names[d][n];
    var u := Unbind(t, d, n);
    OnlyEntry(t, d, n);
    UnbindWired(t, d, n);
    UnbindEntries(t, d, n, i);
    assert i != d && u.names[i] == t.names[i];
    WithoutDirWired(u, d, i);
    hide Wired, CountOk, WithoutDir, Unbind;
    forall j: nat | j < |t.kinds| ensures CountOk(RemovedDir(t, d, n), j) {
      RemovedDirCount(t, d, n, j);
    }
  }

  lemma RemovedDirCount(t: Tree, d: nat, n: Name, j: nat)
    requires Linked(t) && HasEntry(t, d, n) && EmptyDir(t, t.names[d][n]) && d != t.names[d][n] && j < |t.kinds|
    requires d < |t.links| && t.names[d][n] < |t.kinds| && Shaped(RemovedDir(t, d, n))
    ensures CountOk(RemovedDir(t, d, n), j)
  {
    hide Wired, Entries, ChildDirs;
    var i := t.names[d][n];
    var u := Unbind(t, d, n);
    OnlyEntry(t, d, n);
    UnbindEntries(t, d, n, i);
    UnbindEntries(t, d, n, j);
    assert CountOk(t, j);
    WithoutDirSets(u, d, i, j);
    if j in t.names {
      UnbindChildren(t, d, n, j);
    }
  }

  /** Repointing "..", which no entry and no child count reads. */
  ghost function Adopted(t: Tree, i: nat, p: nat): Tree
    requires i in t.names
  {
    var m: map<Name, nat> := t.names[i][DOTDOT := p];
    t.(names := t.names[i := m])
  }

  lemma AdoptedSets(t: Tree, i: nat, p: nat, j: nat)
    requires i in t.names
    ensures Entries(Adopted(t, i, p), j) == Entries(t, j)
    ensures j in t.names ==> ChildDirs(Adopted(t, i, p), j) == ChildDirs(t, j)
  {
  }

  /** A directory with no name may be given any parent. */
  lemma AdoptedWired(t: Tree, i: nat, p: nat)
    requires Shaped(t) && Wired(t) && i in t.names && i != ROOT && Entries(t, i) == {}
    ensures Shaped(Adopted(t, i, p)) && Wired(Adopted(t, i, p))
  {
    var w := Adopted(t, i, p);
    assert Shaped(w);
    forall e, m | HasEntry(w, e, m)
      ensures HasEntry(t, e, m) && w.names[e][m] == t.names[e][m] && t.names[e][m] != i
    {
      assert (e, m) !in Entries(t, i);
    }
    assert TargetsLive(w);
    assert DotsOk(w);
    assert ParentsOk(w);
  }

  /** The names after ext2_rename has inserted the new entry and removed the old (fs/ext2/write.c:274-278). */
  ghost function MovedNames(t: Tree, od: nat, on: Name, nd: nat, nn: Name): Tree
    requires od in t.names && on in t.names[od] && nd in t.names
  {
    var i := t.names[od][on];
    var u := Bind(t, nd, nn, i);
    var w := Unbind(u, od, on);
    if i in t.names && od != nd then Adopted(w, i, nd) else w
  }

  /** ... and the link counts adjusted (fs/ext2/write.c:280-289). */
  ghost function Moved(t: Tree, od: nat, on: Name, nd: nat, nn: Name): Tree
    requires od in t.names && on in t.names[od] && nd in t.names && od < |t.links| && nd < |t.links|
  {
    var u := MovedNames(t, od, on, nd, nn);
    if t.names[od][on] in t.names && od != nd
    then u.(links := u.links[od := if u.links[od] > 0 then u.links[od] - 1 else 0][nd := u.links[nd] + 1])
    else u
  }

  /** The same tree, reached by removing first: no intermediate state breaks the wiring. */
  lemma MoveReordered(t: Tree, od: nat, on: Name, nd: nat, nn: Name)
    requires Shaped(t) && HasEntry(t, od, on) && nd in t.names && nn !in t.names[nd] && Proper(nn)
    ensures var i, u := t.names[od][on], Unbind(t, od, on);
            MovedNames(t, od, on, nd, nn) == Bind(if i in t.names && od != nd then Adopted(u, i, nd) else u, nd, nn, i)
  {
    var i, u := t.names[od][on], Unbind(t, od, on);
    var a := MovedNames(t, od, on, nd, nn);
    var b := Bind(if i in t.names && od != nd then Adopted(u, i, nd) else u, nd, nn, i);
    assert a.names.Keys == b.names.Keys;
    forall e | e in a.names ensures a.names[e] == b.names[e] {
      MoveReorderedAt(t, od, on, nd, nn, e);
    }
  }

  lemma MoveReorderedAt(t: Tree, od: nat, on: Name, nd: nat, nn: Name, e: nat)
    requires Shaped(t) && HasEntry(t, od, on) && nd in t.names && nn !in t.names[nd] && Proper(nn) && e in t.names
    ensures var i, u := t.names[od][on], Unbind(t, od, on);
            MovedNames(t, od, on, nd, nn).names[e] ==
                Bind(if i in t.names && od != nd then Adopted(u, i, nd) else u, nd, nn, i).names[e]
  {
    hide Shaped;
  }

  lemma MovedWired(t: Tree, od: nat, on: Name, nd: nat, nn: Name)
    requires Linked(t) && HasEntry(t, od, on) && nd in t.names && nn !in t.names[nd] && Proper(nn)
    ensures Shaped(MovedNames(t, od, on, nd, nn)) && Wired(MovedNames(t, od, on, nd, nn))
  {
    var i, u := t.names[od][on], Unbind(t, od, on);
    assert i < |t.kinds| && t.kinds[i] != Free;
    UnbindWired(t, od, on);
    MoveReordered(t, od, on, nd, nn);
    if i in t.names {
      OnlyEntry(t, od, on);
      UnbindEntries(t, od, on, i);
      MovedDirWired(t, od, on, nd, nn);
    } else {
      hide Wired, Shaped;
      BindWired(u, nd, nn, i);
    }
  }

  lemma MovedDirWired(t: Tree, od: nat, on: Name, nd: nat, nn: Name)
    requires Linked(t) && HasEntry(t, od, on) && nd in t.names && nn !in t.names[nd] && Proper(nn)
    requires var i, u := t.names[od][on], Unbind(t, od, on);
             i in t.names && i != ROOT && i < |t.kinds| && Shaped(u) && Wired(u) && Entries(u, i) == {}
    ensures var i, u := t.names[od][on], Unbind(t, od, on);
            var w := Bind(if od != nd then Adopted(u, i, nd) else u, nd, nn, i);
            Shaped(w) && Wired(w)
  {
    var i, u := t.names[od][on], Unbind(t, od, on);
    hide CountOk, Entries, TargetsLive, ParentsOk;
    if od != nd {
      AdoptedWired(u, i, nd);
      BindWired(Adopted(u, i, nd), nd, nn, i);
    } else {
      MovedParent(t, od, on);
      BindWired(u, nd, nn, i);
    }
  }

  lemma MovedParent(t: Tree, od: nat, on: Name)
    requires Linked(t) && HasEntry(t, od, on) && t.names[od][on] in t.names
    ensures var i := t.names[od][on];
            DOTDOT in Unbind(t, od, on).names[i] && Unbind(t, od, on).names[i][DOTDOT] == od
  {
    hide CountOk;
  }

  lemma LinksWired(t: Tree, u: Tree)
    requires Shaped(t) && Wired(t) && u.names == t.names && u.kinds == t.kinds && |u.links| == |t.links|
    ensures Shaped(u) && Wired(u)
  {
    forall e, m ensures HasEntry(u, e, m) == HasEntry(t, e, m) {
    }
  }

  lemma MovedLinked(t: Tree, od: nat, on: Name, nd: nat, nn: Name)
    requires Linked(t) && HasEntry(t, od, on) && nd in t.names && nn !in t.names[nd] && Proper(nn)
    ensures od < |t.links| && nd < |t.links| && Linked(Moved(t, od, on, nd, nn))
  {
    assert od < |t.links| && nd < |t.links|;
    MovedWired(t, od, on, nd, nn);
    hide Wired, CountOk, MovedNames, Shaped;
    MovedShape(t, od, on, nd, nn);
    LinksWired(MovedNames(t, od, on, nd, nn), Moved(t, od, on, nd, nn));
    forall j: nat | j < |t.kinds| ensures CountOk(Moved(t, od, on, nd, nn), j) {
      MovedCount(t, od, on, nd, nn, j);
    }
  }

  lemma MovedShape(t: Tree, od: nat, on: Name, nd: nat, nn: Name)
    requires od in t.names && on in t.names[od] && nd in t.names && od < |t.links| && nd < |t.links|
    ensures var w := MovedNames(t, od, on, nd, nn);
            w.kinds == t.kinds && w.links == t.links
            && Moved(t, od, on, nd, nn) == w.(links := Moved(t, od, on, nd, nn).links)
            && |Moved(t, od, on, nd, nn).links| == |t.links|
    ensures forall k: nat :: k < |t.links| && k != od && k != nd ==> Moved(t, od, on, nd, nn).links[k] == t.links[k]
  {
  }

  lemma MovedSets(t: Tree, od: nat, on: Name, nd: nat, nn: Name, j: nat)
    requires Shaped(t) && HasEntry(t, od, on) && nd in t.names && nn !in t.names[nd] && Proper(nn)
    ensures var i, w := t.names[od][on], MovedNames(t, od, on, nd, nn);
            && Entries(w, j) == (if i == j then Entries(t, j) - {(od, on)} + {(nd, nn)} else Entries(t, j))
            && (j in t.names ==>
                  ChildDirs(w, j) == ChildDirs(t, j) - (if j == od then {on} else {})
                    + (if j == nd && IsDirectory(t, i) then {nn} else {}))
  {
    hide Entries, ChildDirs;
    var i, u := t.names[od][on], Unbind(t, od, on);
    MoveReordered(t, od, on, nd, nn);
    var v := if i in t.names && od != nd then Adopted(u, i, nd) else u;
    BindEntries(v, nd, nn, i, j);
    if i in t.names && od != nd {
      AdoptedSets(u, i, nd, j);
    }
    UnbindEntries(t, od, on, j);
    if j in t.names {
      BindChildren(v, nd, nn, i, j);
      UnbindChildren(t, od, on, j);
    }
  }

  lemma MovedCount(t: Tree, od: nat, on: Name, nd: nat, nn: Name, j: nat)
    requires Linked(t) && HasEntry(t, od, on) && nd in t.names && nn !in t.names[nd] && Proper(nn)
    requires od < |t.links| && nd < |t.links| && Shaped(Moved(t, od, on, nd, nn)) && j < |t.kinds|
    ensures CountOk(Moved(t, od, on, nd, nn), j)
  {
    hide Wired, Entries, ChildDirs, MovedNames, Moved;
    var w, m := MovedNames(t, od, on, nd, nn), Moved(t, od, on, nd, nn);
    assert CountOk(t, j);
    MovedShape(t, od, on, nd, nn);
    NamesOnly(w, m, j);
    MovedEntriesSize(t, od, on, nd, nn, j);
    if j in t.names {
      MovedChildrenSize(t, od, on, nd, nn, j);
    }
  }

  lemma MovedEntriesSize(t: Tree, od: nat, on: Name, nd: nat, nn: Name, j: nat)
    requires Shaped(t) && HasEntry(t, od, on) && nd in t.names && nn !in t.names[nd] && Proper(nn)
    ensures |Entries(MovedNames(t, od, on, nd, nn), j)| == |Entries(t, j)|
  {
    hide Entries, ChildDirs, MovedNames;
    MovedSets(t, od, on, nd, nn, j);
    UnbindEntries(t, od, on, j);
    NotYet(t, nd, nn, j);
  }

  /** A directory's link count follows its child directories through a move. */
  lemma MovedChildrenSize(t: Tree, od: nat, on: Name, nd: nat, nn: Name, j: nat)
    requires Shaped(t) && HasEntry(t, od, on) && nd in t.names && nn !in t.names[nd] && Proper(nn) && j in t.names
    requires od < |t.links| && nd < |t.links| && t.links[j] == 2 + |ChildDirs(t, j)|
    ensures Moved(t, od, on, nd, nn).links[j] == 2 + |ChildDirs(MovedNames(t, od, on, nd, nn), j)|
  {
    hide Entries, ChildDirs, MovedNames, Moved, Unbind;
    MovedSets(t, od, on, nd, nn, j);
    MovedLinkAt(t, od, on, nd, nn, j);
    UnbindChildren(t, od, on, j);
    NotYet(t, nd, nn, j);
    SizeAfter(ChildDirs(t, j), on, nn, j == od, j == nd && IsDirectory(t, t.names[od][on]));
  }

  lemma MovedLinkAt(t: Tree, od: nat, on: Name, nd: nat, nn: Name, j: nat)
    requires od in t.names && on in t.names[od] && nd in t.names && od < |t.links| && nd < |t.links| && j < |t.links|
    ensures j < |Moved(t, od, on, nd, nn).links|
    ensures Moved(t, od, on, nd, nn).links[j] ==
              if t.names[od][on] !in t.names || od == nd then t.links[j]
              else if j == nd then t.links[j] + 1
              else if j == od && t.links[j] > 0 then t.links[j] - 1
              else t.links[j]
  {
  }

  lemma SizeAfter(c: set<Name>, on: Name, nn: Name, out: bool, into: bool)
    requires into ==> nn !in c
    ensures |c - (if out then {on} else {}) + (if into then {nn} else {})| ==
              |c| - (if out && on in c then 1 else 0) + (if into then 1 else 0)
  {
    var d := c - (if out then {on} else {});
    assert d == if out && on in c then c - {on} else c;
    assert d + {} == d;
  }

  lemma NotYet(t: Tree, d: nat, n: Name, j: nat)
    requires d in t.names && n !in t.names[d]
    ensures (d, n) !in Entries(t, j) && n !in ChildDirs(t, d)
  {
  }
}
