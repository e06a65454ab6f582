/**
 * The editor's text as a file (editor/editor.c:42-52, 104-169): lines of at
 * most 255 bytes, loaded from and saved to a flat sequence of bytes.
 */
module EditorText {
  import opened Bytes

  const MAX_LINES: nat := 512
  const MAX_COL: nat := 256
  const NEWLINE: byte := 10

  type Line = seq<byte>

  predicate LineOk(l: Line) { |l| < MAX_COL && 0 !in l && NEWLINE !in l }

  predicate TextOk(ls: seq<Line>) {
    1 <= |ls| <= MAX_LINES && forall i :: 0 <= i < |ls| ==> LineOk(ls[i])
  }

  predicate NoBreaks(ls: seq<Line>) { forall i :: 0 <= i < |ls| ==> NEWLINE !in ls[i] }

  // ---- lines and flat text ----

  /** The bytes of a text: every line followed by a newline. */
  function Flat(ls: seq<Line>): seq<byte> {
    if ls == [] then [] else ls[0] + [NEWLINE] + Flat(ls[1..])
  }

  lemma FlatFirst(l: Line, rest: seq<Line>)
    ensures Flat([l] + rest) == l + [NEWLINE] + Flat(rest)
  {
    assert ([l] + rest)[1..] == rest;
  }

  lemma {:induction false} FlatConcat(a: seq<Line>, b: seq<Line>)
    ensures Flat(a + b) == Flat(a) + Flat(b)
    decreases |a|, 1
  {
    if a == [] {
      assert a + b == b;
    } else {
      FlatConcatStep(a, b);
    }
  }

  lemma {:induction false} FlatConcatStep(a: seq<Line>, b: seq<Line>)
    requires a != []
    ensures Flat(a + b) == Flat(a) + Flat(b)
    decreases |a|, 0
  {
    hide Flat;
    var l, rest := a[0], a[1..];
    assert a == [l] + rest;
    assert a + b == [l] + (rest + b);
    FlatFirst(l, rest);
    FlatFirst(l, rest + b);
    FlatConcat(rest, b);
    Assoc(l + [NEWLINE], Flat(rest), Flat(b));
  }

  /** A file cut at its newlines; what follows the last one is a line too. */
  function Split(d: seq<byte>): (ls: seq<Line>)
    ensures |ls| >= 1
  {
    if d == [] then [[]]
    else
      var rest := Split(d[1..]);
      if d[0] == NEWLINE then [[]] + rest else [[d[0]] + rest[0]] + rest[1..]
  }

  lemma {:induction false} SplitClean(d: seq<byte>)
    ensures NoBreaks(Split(d))
  {
    if d != [] { SplitClean(d[1..]); }
  }

  lemma {:induction false} SplitLine(l: Line, rest: seq<byte>)
    requires NEWLINE !in l
    ensures Split(l + [NEWLINE] + rest) == [l] + Split(rest)
  {
    var d := l + [NEWLINE] + rest;
    if l == [] {
      assert d[1..] == rest;
    } else {
      assert d[1..] == l[1..] + [NEWLINE] + rest;
      SplitLine(l[1..], rest);
      assert [l[0]] + l[1..] == l;
    }
  }

  lemma {:induction false} SplitLast(l: Line)
    requires NEWLINE !in l
    ensures Split(l) == [l]
  {
    if l != [] {
      SplitLast(l[1..]);
      assert [l[0]] + l[1..] == l;
    }
  }

  lemma {:induction false} SplitFlat(ls: seq<Line>)
    requires NoBreaks(ls)
    ensures Split(Flat(ls)) == ls + [[]]
  {
    if ls != [] {
      SplitFlat(ls[1..]);
      SplitLine(ls[0], Flat(ls[1..]));
      assert [ls[0]] + (ls[1..] + [[]]) == ls + [[]];
    }
  }

  lemma {:induction false} FlatSplit(d: seq<byte>)
    ensures Flat(Split(d)) == d + [NEWLINE]
  {
    if d != [] {
      var rest := Split(d[1..]);
      FlatSplit(d[1..]);
      if d[0] == NEWLINE {
        assert ([[]] + rest)[1..] == rest;
      } else {
        var first: Line := [d[0]] + rest[0];
        assert ([first] + rest[1..])[1..] == rest[1..];
        assert first + [NEWLINE] + Flat(rest[1..]) == [d[0]] + Flat(rest);
      }
      assert d == [d[0]] + d[1..];
    }
  }

  /** The flat text determines the lines. */
  lemma FlatInjective(a: seq<Line>, b: seq<Line>)
    requires NoBreaks(a) && NoBreaks(b) && Flat(a) == Flat(b)
    ensures a == b
  {
    SplitFlat(a);
    SplitFlat(b);
    assert a == (a + [[]])[..|a + [[]]| - 1];
    assert b == (b + [[]])[..|b + [[]]| - 1];
  }

  // ---- loading and saving ----

  /** A C string: the bytes before the first NUL. */
  function CString(s: seq<byte>): (r: Line)
    ensures |r| <= |s| && r == s[..|r|] && 0 !in r
    ensures 0 !in s ==> r == s
  {
    if s == [] || s[0] == 0 then [] else [s[0]] + CString(s[1..])
  }

  /** What lalloc makes of a line's bytes (editor/editor.c:42-52). */
  function Cut(l: seq<byte>): (r: Line)
    ensures |r| < MAX_COL && 0 !in r
    ensures NEWLINE !in l ==> LineOk(r)
    ensures LineOk(l) ==> r == l
  {
    CString(if |l| >= MAX_COL then l[..MAX_COL - 1] else l)
  }

  function Cuts(ls: seq<Line>): (r: seq<Line>)
    ensures |r| == |ls|
    ensures forall i :: 0 <= i < |ls| ==> r[i] == Cut(ls[i])
  {
    seq(|ls|, i requires 0 <= i < |ls| => Cut(ls[i]))
  }

  /** The empty line after a final newline is not a line of the file. */
  function Trimmed(d: seq<byte>, ls: seq<Line>): seq<Line>
    requires |ls| >= 1
  {
    if |ls| > 1 && |d| > 0 && d[|d| - 1] == NEWLINE && ls[|ls| - 1] == [] then ls[..|ls| - 1] else ls
  }

  function FirstLines(ls: seq<Line>): seq<Line> {
    if |ls| > MAX_LINES then ls[..MAX_LINES] else ls
  }

  function Loaded(d: seq<byte>): seq<Line> {
    Trimmed(d, Cuts(FirstLines(Split(d))))
  }

  /** Whatever the file holds, the loaded text keeps the editor's bounds. */
  lemma LoadedOk(d: seq<byte>)
    ensures TextOk(Loaded(d))
  {
    SplitClean(d);
    var raw := FirstLines(Split(d));
    forall i | 0 <= i < |raw| ensures LineOk(Cuts(raw)[i]) {
      assert raw[i] == Split(d)[i];
    }
  }

  lemma FlatEnds(ls: seq<Line>)
    requires ls != []
    ensures |Flat(ls)| > 0 && Flat(ls)[|Flat(ls)| - 1] == NEWLINE
  {
    var k := |ls| - 1;
    assert ls == ls[..k] + [ls[k]];
    FlatConcat(ls[..k], [ls[k]]);
  }

  /** Saving a text and loading it again gives it back, except one that fills all 512 lines and ends in an empty one. */
  lemma SaveThenLoad(ls: seq<Line>)
    requires TextOk(ls)
    ensures Loaded(Flat(ls)) == ls <==> !(|ls| == MAX_LINES && ls[MAX_LINES - 1] == [])
  {
    var d := Flat(ls);
    SplitFlat(ls);
    FlatEnds(ls);
    var raw := FirstLines(ls + [[]]);
    if |ls| == MAX_LINES {
      assert raw == ls;
      assert Cuts(raw) == ls;
    } else {
      assert raw == ls + [[]];
      assert Cuts(raw) == ls + [[]];
      assert (ls + [[]])[..|ls|] == ls;
    }
  }

  /** The files the editor can load and save back unchanged. */
  predicate Faithful(d: seq<byte>) {
    var raw := Split(d);
    && 1 < |raw| <= MAX_LINES + 1
    && raw[|raw| - 1] == []
    && (forall i :: 0 <= i < |raw| ==> LineOk(raw[i]))
    && !(|raw| == MAX_LINES + 1 && raw[MAX_LINES - 1] == [])
  }

  /**
   * Loading a file and saving it at once leaves it unchanged exactly when it ends
   * with a newline, has at most 512 lines of at most 255 bytes, no NUL byte, and is
   * not a file of 512 lines whose last is empty.
   */
  lemma LoadThenSave(d: seq<byte>)
    ensures Flat(Loaded(d)) == d <==> Faithful(d)
  {
    if Flat(Loaded(d)) == d {
      UnchangedIsFaithful(d);
    }
    if Faithful(d) {
      FaithfulIsUnchanged(d);
    }
  }

  lemma UnchangedIsFaithful(d: seq<byte>)
    requires Flat(Loaded(d)) == d
    ensures Faithful(d)
  {
    hide Loaded;
    var ls := Loaded(d);
    LoadedOk(d);
    SplitFlat(ls);
    SaveThenLoad(ls);
    assert Split(d) == ls + [[]];
  }

  lemma FaithfulIsUnchanged(d: seq<byte>)
    requires Faithful(d)
    ensures Flat(Loaded(d)) == d
  {
    hide Loaded;
    var raw := Split(d);
    var k := |raw| - 1;
    var ls := raw[..k];
    assert raw == ls + [[]];
    FlatSplit(d);
    FlatConcat(ls, [[]]);
    assert Flat(ls) + [NEWLINE] == d + [NEWLINE];
    assert Flat(ls) == (Flat(ls) + [NEWLINE])[..|d|] == d;
    forall i | 0 <= i < |ls| ensures LineOk(ls[i]) {
      assert ls[i] == raw[i];
    }
    SaveThenLoad(ls);
  }

  /** raw holds the lines that end before start, and no newline lies between start and i. */
  ghost predicate Reading(data: seq<byte>, raw: seq<Line>, start: nat, i: nat) {
    && start <= i <= |data| + 1
    && (i == |data| + 1 ==> start == i)
    && if start <= |data| then NEWLINE !in data[start..i] && Split(data) == raw + Split(data[start..])
       else Split(data) == raw
  }

  lemma ReadingStarts(data: seq<byte>)
    ensures Reading(data, [], 0, 0)
  {
    hide Split;
    assert data[0..] == data;
    assert [] + Split(data) == Split(data);
  }

  lemma ReadingLine(data: seq<byte>, raw: seq<Line>, start: nat, i: nat)
    requires Reading(data, raw, start, i) && i <= |data|
    requires i == |data| || data[i] == NEWLINE
    ensures Reading(data, raw + [data[start..i]], i + 1, i + 1)
  {
    hide Split;
    NextLine(data, start, i);
    if i < |data| {
      assert raw + ([data[start..i]] + Split(data[i + 1..])) == raw + [data[start..i]] + Split(data[i + 1..]);
    }
  }

  lemma ReadingByte(data: seq<byte>, raw: seq<Line>, start: nat, i: nat)
    requires Reading(data, raw, start, i) && i < |data| && data[i] != NEWLINE
    ensures Reading(data, raw, start, i + 1)
  {
    hide Split;
    assert data[start..i + 1] == data[start..i] + [data[i]];
  }

  lemma ReadingDone(data: seq<byte>, raw: seq<Line>, start: nat, i: nat)
    requires Reading(data, raw, start, i) && |raw| <= MAX_LINES && (i > |data| || |raw| == MAX_LINES)
    ensures FirstLines(Split(data)) == raw
  {
    hide Split;
  }

  lemma CutsNext(raw: seq<Line>, l: Line)
    ensures Cuts(raw + [l]) == Cuts(raw) + [Cut(l)]
  {
  }

  /** load_file's loop over the bytes read (editor/editor.c:121-138). */
  method LoadFile(data: seq<byte>) returns (lines: seq<Line>)
    ensures lines == Loaded(data) && TextOk(lines)
  {
    hide Reading, Split, Cuts, Cut;
    lines := [];
    ghost var raw: seq<Line> := [];
    var i: nat, start: nat := 0, 0;
    ReadingStarts(data);
    while i <= |data| && |lines| < MAX_LINES
      invariant start <= i <= |data| + 1
      invariant |raw| <= MAX_LINES && lines == Cuts(raw)
      invariant Reading(data, raw, start, i)
      decreases |data| + 1 - i
    {
      if i == |data| || data[i] == NEWLINE {
        ReadingLine(data, raw, start, i);
        CutsNext(raw, data[start..i]);
        raw := raw + [data[start..i]];
        lines := lines + [Cut(data[start..i])];
        start := i + 1;
      } else {
        ReadingByte(data, raw, start, i);
      }
      i := i + 1;
    }
    ReadingDone(data, raw, start, i);
    if |lines| > 1 && |data| > 0 && data[|data| - 1] == NEWLINE && |lines[|lines| - 1]| == 0 {
      lines := lines[..|lines| - 1];
    }
    if |lines| == 0 {
      lines := [[]];
    }
    LoadedOk(data);
  }

  lemma NextLine(data: seq<byte>, start: nat, i: nat)
    requires start <= i <= |data| && NEWLINE !in data[start..i]
    requires i == |data| || data[i] == NEWLINE
    ensures i == |data| ==> Split(data[start..]) == [data[start..i]]
    ensures i < |data| ==> Split(data[start..]) == [data[start..i]] + Split(data[i + 1..])
  {
    if i == |data| {
      assert data[start..] == data[start..i];
      SplitLast(data[start..i]);
    } else {
      assert data[start..] == data[start..i] + [NEWLINE] + data[i + 1..];
      SplitLine(data[start..i], data[i + 1..]);
    }
  }

  /** save_file's loop that joins the lines (editor/editor.c:142-155). */
  method JoinLines(lines: seq<Line>) returns (out: seq<byte>)
    ensures out == Flat(lines)
  {
    out := [];
    for i := 0 to |lines|
      invariant out == Flat(lines[..i])
    {
      assert lines[..i + 1] == lines[..i] + [lines[i]];
      FlatConcat(lines[..i], [lines[i]]);
      assert Flat([lines[i]]) == lines[i] + [NEWLINE];
      out := out + lines[i];
      out := out + [NEWLINE];
    }
    assert lines[..|lines|] == lines;
  }
}
