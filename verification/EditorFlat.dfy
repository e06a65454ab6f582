/**
 * Edits of the editor's line array read as edits of the flat text: what the
 * pointer moves and memmoves in editor/editor.c:233-356 mean for the file.
 */
module EditorFlat {
  import opened Bytes
  import opened EditorText

  /** A text with the cursor in it (V.buf, V.cx, V.cy). */
  datatype Spot = Spot(lines: seq<Line>, cx: nat, cy: nat)

  /** 1 to 512 lines of at most 255 bytes, the cursor on a byte or at the end of a line. */
  predicate SpotOk(s: Spot) {
    TextOk(s.lines) && s.cy < |s.lines| && s.cx <= |s.lines[s.cy]|
  }

  function Start(ls: seq<Line>, k: nat): nat
    requires k <= |ls|
  {
    |Flat(ls[..k])|
  }

  /** The cursor as an offset into the flat text. */
  function Pos(s: Spot): nat
    requires s.cy <= |s.lines|
  {
    Start(s.lines, s.cy) + s.cx
  }

  function Added(t: seq<byte>, p: nat, b: seq<byte>): seq<byte>
    requires p <= |t|
  {
    t[..p] + b + t[p..]
  }

  function Without(t: seq<byte>, p: nat, n: nat): seq<byte>
    requires p + n <= |t|
  {
    t[..p] + t[p + n..]
  }

  /** Flat text around line k, with l in its place. */
  function With(ls: seq<Line>, k: nat, l: seq<byte>): seq<byte>
    requires k < |ls|
  {
    Flat(ls[..k]) + (l + ([NEWLINE] + Flat(ls[k + 1..])))
  }

  lemma Regroup(a: seq<byte>, l: seq<byte>, b: seq<byte>)
    ensures a + (l + [NEWLINE] + b) == a + (l + ([NEWLINE] + b))
  {
  }

  lemma Around(ls: seq<Line>, k: nat)
    requires k < |ls|
    ensures Flat(ls) == With(ls, k, ls[k])
    ensures Start(ls, k) + |ls[k]| < |Flat(ls)|
    ensures Start(ls, k + 1) == Start(ls, k) + |ls[k]| + 1
  {
    hide Flat;
    assert ls == ls[..k] + ([ls[k]] + ls[k + 1..]);
    FlatConcat(ls[..k], [ls[k]] + ls[k + 1..]);
    FlatFirst(ls[k], ls[k + 1..]);
    Regroup(Flat(ls[..k]), ls[k], Flat(ls[k + 1..]));
    assert ls[..k + 1] == ls[..k] + ([ls[k]] + []);
    FlatConcat(ls[..k], [ls[k]] + []);
    FlatFirst(ls[k], []);
    FlatNone();
  }

  lemma FlatNone()
    ensures Flat([]) == []
  {
  }

  lemma Placed(ls: seq<Line>, k: nat, l: Line)
    requires k < |ls|
    ensures Flat(ls[k := l]) == With(ls, k, l)
  {
    hide Flat;
    var m := ls[k := l];
    Around(m, k);
    assert m[..k] == ls[..k] && m[k + 1..] == ls[k + 1..];
  }

  // ---- plain sequences ----

  lemma CutMiddle(a: seq<byte>, l: seq<byte>, b: seq<byte>, from: nat, to: nat)
    requires from <= to <= |l|
    ensures a + ((l[..from] + l[to..]) + b) == Without(a + (l + b), |a| + from, to - from)
  {
    var t := a + (l + b);
    assert t[..|a| + from] == a + l[..from];
    assert t[|a| + to..] == l[to..] + b;
  }

  lemma AddMiddle(a: seq<byte>, l: seq<byte>, b: seq<byte>, at: nat, x: seq<byte>)
    requires at <= |l|
    ensures a + ((l[..at] + x + l[at..]) + b) == Added(a + (l + b), |a| + at, x)
  {
    var t := a + (l + b);
    assert t[..|a| + at] == a + l[..at];
    assert t[|a| + at..] == l[at..] + b;
  }

  // ---- edits inside one line ----

  /** Taking bytes out of a line takes them out of the text. */
  lemma CutInLine(ls: seq<Line>, k: nat, from: nat, to: nat)
    requires k < |ls| && from <= to <= |ls[k]|
    ensures Start(ls, k) + to <= |Flat(ls)|
    ensures Flat(ls[k := ls[k][..from] + ls[k][to..]]) == Without(Flat(ls), Start(ls, k) + from, to - from)
  {
    hide Flat;
    Around(ls, k);
    Placed(ls, k, ls[k][..from] + ls[k][to..]);
    CutMiddle(Flat(ls[..k]), ls[k], [NEWLINE] + Flat(ls[k + 1..]), from, to);
  }

  lemma AddInLine(ls: seq<Line>, k: nat, at: nat, x: seq<byte>)
    requires k < |ls| && at <= |ls[k]|
    ensures Start(ls, k) + at <= |Flat(ls)|
    ensures Flat(ls[k := ls[k][..at] + x + ls[k][at..]]) == Added(Flat(ls), Start(ls, k) + at, x)
  {
    hide Flat;
    Around(ls, k);
    Placed(ls, k, ls[k][..at] + x + ls[k][at..]);
    AddMiddle(Flat(ls[..k]), ls[k], [NEWLINE] + Flat(ls[k + 1..]), at, x);
  }

  function SetByte(l: Line, at: nat, c: byte): Line
    requires at < |l|
  {
    l[at := c]
  }

  lemma SetInLine(ls: seq<Line>, k: nat, at: nat, c: byte)
    requires k < |ls| && at < |ls[k]|
    ensures Start(ls, k) + at < |Flat(ls)|
    ensures Flat(ls[k := SetByte(ls[k], at, c)]) == Flat(ls)[Start(ls, k) + at := c]
  {
    hide Flat;
    Around(ls, k);
    Placed(ls, k, SetByte(ls[k], at, c));
    var a, l, b := Flat(ls[..k]), ls[k], [NEWLINE] + Flat(ls[k + 1..]);
    assert a + (l[at := c] + b) == (a + (l + b))[|a| + at := c];
  }

  // ---- edits of the line array ----

  /** A new line is its bytes and a newline put in at the start of a line. */
  lemma LineAdded(ls: seq<Line>, k: nat, l: Line)
    requires k <= |ls|
    ensures Start(ls, k) <= |Flat(ls)|
    ensures Flat(ls[..k] + [l] + ls[k..]) == Added(Flat(ls), Start(ls, k), l + [NEWLINE])
  {
    hide Flat;
    var a, b := Flat(ls[..k]), Flat(ls[k..]);
    assert ls == ls[..k] + ls[k..];
    FlatConcat(ls[..k], ls[k..]);
    assert ls[..k] + [l] + ls[k..] == ls[..k] + ([l] + ls[k..]);
    FlatConcat(ls[..k], [l] + ls[k..]);
    FlatFirst(l, ls[k..]);
    assert (a + b)[..|a|] == a && (a + b)[|a|..] == b;
    assert a + (l + [NEWLINE] + b) == a + (l + [NEWLINE]) + b;
  }

  /** A line removed takes its bytes and its newline with it. */
  lemma LineDropped(ls: seq<Line>, k: nat)
    requires k < |ls|
    ensures Start(ls, k) + |ls[k]| + 1 <= |Flat(ls)|
    ensures Flat(ls[..k] + ls[k + 1..]) == Without(Flat(ls), Start(ls, k), |ls[k]| + 1)
  {
    hide Flat;
    Around(ls, k);
    FlatConcat(ls[..k], ls[k + 1..]);
    var a, l, b := Flat(ls[..k]), ls[k] + [NEWLINE], Flat(ls[k + 1..]);
    Regroup(a, ls[k], b);
    assert a + (l + b) == With(ls, k, ls[k]);
    CutMiddle(a, l, b, 0, |l|);
    assert l[..0] + l[|l|..] + b == b;
  }

  /** Breaking a line puts a newline in. */
  lemma LineBroken(ls: seq<Line>, k: nat, at: nat)
    requires k < |ls| && at <= |ls[k]|
    ensures Start(ls, k) + at <= |Flat(ls)|
    ensures Flat(ls[..k] + [ls[k][..at], ls[k][at..]] + ls[k + 1..]) == Added(Flat(ls), Start(ls, k) + at, [NEWLINE])
  {
    hide Flat;
    var l, r := ls[k][..at], ls[k][at..];
    var one := ls[k := r];
    Around(ls, k);
    Placed(ls, k, r);
    LineAdded(one, k, l);
    assert one[..k] == ls[..k];
    assert one[..k] + [l] + one[k..] == ls[..k] + [l, r] + ls[k + 1..];
    var a, b := Flat(ls[..k]), [NEWLINE] + Flat(ls[k + 1..]);
    AddMiddle(a, r, b, 0, l + [NEWLINE]);
    assert r[..0] + (l + [NEWLINE]) + r[0..] == ls[k][..at] + [NEWLINE] + ls[k][at..];
    AddMiddle(a, ls[k], b, at, [NEWLINE]);
  }

  /** Joining two lines takes the newline between them out. */
  lemma LinesJoined(ls: seq<Line>, k: nat)
    requires k + 1 < |ls|
    ensures Start(ls, k) + |ls[k]| + 1 <= |Flat(ls)|
    ensures Flat(ls[..k] + [ls[k] + ls[k + 1]] + ls[k + 2..]) == Without(Flat(ls), Start(ls, k) + |ls[k]|, 1)
  {
    hide Flat;
    var l, r := ls[k], ls[k + 1];
    var one := ls[..k] + [l + r] + ls[k + 2..];
    LineBroken(one, k, |l|);
    assert one[..k] == ls[..k] && one[k] == l + r;
    assert (l + r)[..|l|] == l && (l + r)[|l|..] == r;
    assert one[..k] + [l, r] + one[k + 1..] == ls;
    var t, p := Flat(one), Start(ls, k) + |l|;
    assert Without(Added(t, p, [NEWLINE]), p, 1) == t;
  }

  /** Joining with a blank between turns the newline into the blank. */
  lemma LinesSpaced(ls: seq<Line>, k: nat)
    requires k + 1 < |ls|
    ensures Start(ls, k) + |ls[k]| < |Flat(ls)|
    ensures Flat(ls[..k] + [ls[k] + [32] + ls[k + 1]] + ls[k + 2..]) == Flat(ls)[Start(ls, k) + |ls[k]| := 32]
  {
    hide Flat;
    var l, r := ls[k], ls[k + 1];
    var one := ls[..k] + [l + r] + ls[k + 2..];
    var p := Start(ls, k) + |l|;
    LinesJoined(ls, k);
    assert one[..k] == ls[..k];
    AddInLine(one, k, |l|, [32]);
    assert (l + r)[..|l|] + [32] + (l + r)[|l|..] == l + [32] + r;
    assert one[k := l + [32] + r] == ls[..k] + [l + [32] + r] + ls[k + 2..];
    var t := Flat(ls);
    assert Added(Without(t, p, 1), p, [32]) == t[p := 32];
  }

  // ---- the cursor ----

  lemma StartMonotone(ls: seq<Line>, j: nat, k: nat)
    requires j < k <= |ls|
    ensures Start(ls, j) + |ls[j]| < Start(ls, k)
    decreases k
  {
    hide Flat;
    Around(ls, k - 1);
    if j < k - 1 {
      StartMonotone(ls, j, k - 1);
    }
  }

  /** The flat text and the cursor's offset determine the lines and the cursor. */
  lemma SpotIsFlat(s: Spot, t: Spot)
    requires SpotOk(s) && SpotOk(t) && Flat(s.lines) == Flat(t.lines) && Pos(s) == Pos(t)
    ensures s == t
  {
    hide Flat;
    FlatInjective(s.lines, t.lines);
    if s.cy < t.cy {
      StartMonotone(s.lines, s.cy, t.cy);
    } else if t.cy < s.cy {
      StartMonotone(s.lines, t.cy, s.cy);
    }
  }
}
