/**
 * The editor itself (editor/editor.c): the state it updates in place, its edit
 * primitives and the handlers of the four modes. A line buffer is the sequence of
 * bytes before its NUL; kmalloc succeeds. A failed write leaves the file as it was.
 */
module Editor {
  import opened Arith
  import opened Bytes
  import opened EditorText
  import opened EditorFlat
  import opened EditorKeys
  import opened Wrappers

  const VIM_ROWS: nat := 23

  predicate MatchAt(line: Line, k: nat, pat: seq<byte>) {
    k + |pat| <= |line| && line[k..k + |pat|] == pat
  }

  /** strstr(line + from, pat): the first match at or after from. */
  method Strstr(line: Line, from: nat, pat: seq<byte>) returns (r: Option<nat>)
    requires from <= |line|
    ensures r.Some? ==> from <= r.value && MatchAt(line, r.value, pat)
    ensures forall k :: from <= k < (if r.Some? then r.value else |line| + 1) ==> !MatchAt(line, k, pat)
    ensures r.None? ==> NoMatch(line, from, pat)
  {
    var k := from;
    while k <= |line|
      invariant from <= k <= |line| + 1
      invariant forall j :: from <= j < k ==> !MatchAt(line, j, pat)
    {
      if k + |pat| <= |line| && line[k..k + |pat|] == pat {
        return Some(k);
      }
      k := k + 1;
    }
    r := None;
  }

  class Editor {
    var lines: seq<Line>
    var cx: nat
    var cy: nat
    var dirty: bool
    var running: bool
    var mode: Mode
    var pending: int
    var cmd: string
    var yank: Option<Line>
    var undo: Option<Spot>
    var search: seq<byte>
    var disk: Option<seq<byte>>

    ghost function Here(): Spot reads this { Spot(lines, cx, cy) }

    ghost function Now(): View
      reads this
    {
      View(Here(), dirty, running, mode, pending, cmd, yank, undo, search, disk)
    }

    ghost predicate Valid() reads this { Sane(Now()) }

    /** editor_open up to its loop, and load_file (editor/editor.c:104-140, 755-761). */
    constructor (file: Option<seq<byte>>)
      ensures Valid()
      ensures Now() == View(Spot(if file.Some? then Loaded(file.value) else [[]], 0, 0),
                            false, true, NORMAL, 0, "", None, None, [], file)
    {
      cx, cy, dirty, running, mode, pending := 0, 0, false, true, NORMAL, 0;
      cmd, yank, undo, search, disk := "", None, None, [], file;
      if file.None? {
        lines := [[]];
      } else {
        var ls := LoadFile(file.value);
        lines := ls;
      }
    }

    // ---- edit primitives (editor/editor.c:233-356) ----

    /** insert_char; nothing happens in a full line. */
    method InsertChar(c: byte)
      requires SpotOk(Here()) && Printable(c)
      modifies this`lines, this`cx, this`dirty
      ensures SpotOk(Here())
      ensures if |old(lines[cy])| + 1 < MAX_COL
              then Here() == Spot(old(lines[cy := lines[cy][..cx] + [c] + lines[cy][cx..]]), old(cx) + 1, cy) && dirty
              else Here() == old(Here()) && dirty == old(dirty)
    {
      var line := lines[cy];
      if |line| + 1 >= MAX_COL { return; }
      lines := lines[cy := line[..cx] + [c] + line[cx..]];
      cx := cx + 1;
      dirty := true;
    }

    method InsertNewline()
      requires SpotOk(Here())
      modifies this`lines, this`cx, this`cy, this`dirty
      ensures SpotOk(Here()) && Flat(lines) == InsertText(old(Here()), KEY_ENTER)
      ensures |old(lines)| < MAX_LINES ==> cx == 0 && cy == old(cy) + 1 && dirty
      ensures |old(lines)| >= MAX_LINES ==> Here() == old(Here()) && dirty == old(dirty)
    {
      hide Flat;
      if |lines| >= MAX_LINES { return; }
      var line := lines[cy];
      LineBroken(lines, cy, cx);
      lines := lines[..cy] + [line[..cx], line[cx..]] + lines[cy + 1..];
      cy := cy + 1;
      cx := 0;
      dirty := true;
    }

    method BackspaceChar()
      requires SpotOk(Here())
      modifies this`lines, this`cx, this`cy, this`dirty
      ensures SpotOk(Here()) && Flat(lines) == InsertText(old(Here()), KEY_BACKSPACE) && dirty
      ensures Flat(lines) != old(Flat(lines)) ==> Pos(Here()) == old(Pos(Here())) - 1
    {
      hide Flat;
      var line := lines[cy];
      if cx > 0 {
        CutInLine(lines, cy, cx - 1, cx);
        lines := lines[cy := line[..cx - 1] + line[cx..]];
        assert lines[..cy] == old(lines)[..cy];
        cx := cx - 1;
      } else if cy > 0 {
        var before := lines[cy - 1];
        Around(lines, cy - 1);
        if |before| + |line| < MAX_COL {
          LinesJoined(lines, cy - 1);
          lines := lines[..cy - 1] + [before + line] + lines[cy + 1..];
          assert lines[..cy - 1] == old(lines)[..cy - 1];
          cy := cy - 1;
          cx := |before|;
        }
      } else {
        assert lines[..0] == [];
        FlatNone();
      }
      dirty := true;
    }

    method DeleteFwd()
      requires SpotOk(Here())
      modifies this`lines, this`dirty
      ensures SpotOk(Here()) && Flat(lines) == InsertText(old(Here()), KEY_DELETE)
      ensures if lines == old(lines) then dirty == old(dirty) else dirty
    {
      hide Flat;
      var line := lines[cy];
      if cx < |line| {
        CutInLine(lines, cy, cx, cx + 1);
        lines := lines[cy := line[..cx] + line[cx + 1..]];
        assert |lines[cy]| == |line| - 1;
        dirty := true;
      } else if cy + 1 < |lines| {
        var next := lines[cy + 1];
        if |line| + |next| < MAX_COL {
          LinesJoined(lines, cy);
          lines := lines[..cy] + [line + next] + lines[cy + 2..];
          assert |lines| == |old(lines)| - 1;
          dirty := true;
        }
      }
    }

    /** The memmove that closes the gap left by the bytes from..to of the current line. */
    method CutRange(from: nat, to: nat)
      requires SpotOk(Here()) && from <= to <= |lines[cy]|
      modifies this`lines
      ensures TextOk(lines) && |lines| == old(|lines|) && |lines[cy]| == old(|lines[cy]|) - (to - from)
      ensures Flat(lines) == CutText(old(Here()), from, to)
      ensures from == to ==> lines == old(lines)
    {
      hide Flat;
      var line := lines[cy];
      CutInLine(lines, cy, from, to);
      lines := lines[cy := line[..from] + line[to..]];
      if from == to {
        assert line[..from] + line[to..] == line;
      }
    }

    /** A line pushed into the array above or below the cursor's, and the cursor put on it. */
    method OpenLine(l: Line, below: bool)
      requires SpotOk(Here()) && |lines| < MAX_LINES && LineOk(l)
      modifies this`lines, this`cx, this`cy
      ensures SpotOk(Here()) && cx == 0
      ensures Flat(lines) == LineText(old(Here()), l, below)
    {
      hide Flat;
      var at := if below then cy + 1 else cy;
      Around(lines, cy);
      LineAdded(lines, at, l);
      lines := lines[..at] + [l] + lines[at..];
      cy, cx := at, 0;
    }

    /** delete_line of the line the cursor is on. */
    method DeleteLine()
      requires SpotOk(Here())
      modifies this`lines, this`cx, this`cy, this`dirty
      ensures SpotOk(Here()) && dirty
      ensures Flat(lines) == if |old(lines)| == 1 then CutText(old(Here()), 0, |old(lines[cy])|)
              else DropText(old(Here()))
    {
      hide Flat;
      if |lines| == 1 {
        CutRange(0, |lines[0]|);
        cx := 0;
        dirty := true;
        return;
      }
      LineDropped(lines, cy);
      lines := lines[..cy] + lines[cy + 1..];
      if cy >= |lines| { cy := |lines| - 1; }
      cx := 0;
      dirty := true;
    }

    method DeleteToEol()
      requires SpotOk(Here())
      modifies this`lines, this`cx, this`dirty
      ensures SpotOk(Here()) && Flat(lines) == CutText(old(Here()), old(cx), |old(lines[cy])|)
      ensures if lines == old(lines) then dirty == old(dirty) else dirty
    {
      hide Flat;
      var len := |lines[cy]|;
      if cx >= len {
        NothingCut(Here(), cx);
        return;
      }
      CutRange(cx, len);
      if cx > 0 { cx := cx - 1; }
      dirty := true;
    }

    method SaveUndo()
      modifies this`undo
      ensures undo == Some(Here())
    {
      undo := Some(Spot(lines, cx, cy));
    }

    method DoUndo()
      requires Valid()
      modifies this`lines, this`cx, this`cy, this`dirty, this`undo
      ensures Valid()
      ensures Now() == if old(undo).None? then old(Now())
                       else old(Now()).(here := old(undo).value, undo := None, dirty := true)
    {
      if undo.None? { return; }
      lines, cx, cy := undo.value.lines, undo.value.cx, undo.value.cy;
      undo := None;
      dirty := true;
    }

    method ClampCx()
      requires TextOk(lines) && cy < |lines|
      modifies this`cx
      ensures cx <= |lines[cy]|
      ensures mode == INSERT ==> cx == if old(cx) <= |lines[cy]| then old(cx) else |lines[cy]|
    {
      var len := |lines[cy]|;
      var max := if mode == INSERT then len else if len > 0 then len - 1 else 0;
      if cx > max { cx := max; }
    }

    /** save_file; ok is whether the filesystem is mounted and takes the write. */
    method SaveFile(ok: bool) returns (r: bool)
      requires Valid()
      modifies this`dirty, this`disk
      ensures Valid() && r == ok
      ensures if ok then !dirty && disk == Some(Flat(lines)) else dirty == old(dirty) && disk == old(disk)
    {
      var out := JoinLines(lines);
      if ok {
        disk := Some(out);
        dirty := false;
      }
      r := ok;
    }

    // ---- insert mode (editor/editor.c:674-710) ----

    method HandleInsert(key: int)
      requires Valid() && running && mode == INSERT
      modifies this
      ensures Valid() && KeyStep(old(Now()), key, Now()) && disk == old(disk)
    {
      hide Flat, InsertText, TextOk, Loaded;
      ghost var a := Now();
      if key == KEY_ESCAPE {
        mode := NORMAL;
        ClampCx();
      } else if key == KEY_ENTER {
        InsertNewline();
      } else if key == KEY_BACKSPACE {
        BackspaceChar();
      } else if key == KEY_DELETE {
        DeleteFwd();
      } else if key == KEY_UP {
        if cy > 0 { cy := cy - 1; ClampCx(); }
      } else if key == KEY_DOWN {
        if cy + 1 < |lines| { cy := cy + 1; ClampCx(); }
      } else if key == KEY_LEFT {
        if cx > 0 { cx := cx - 1; }
      } else if key == KEY_RIGHT {
        if cx < |lines[cy]| { cx := cx + 1; }
      } else if key == KEY_HOME {
        cx := 0;
      } else if key == KEY_END {
        cx := |lines[cy]|;
      } else if key == KEY_TAB {
        Tab();
      } else if 32 <= key < 127 {
        InsertChar(key);
        TypedText(a.here, key);
      }
      Untyped(a.here, key);
      assert InsertStep(a, key, Now());
      InsertIsStep(a, key, Now());
    }

    method Tab()
      requires SpotOk(Here())
      modifies this`lines, this`cx, this`dirty
      ensures SpotOk(Here()) && Flat(lines) == InsertText(old(Here()), KEY_TAB)
      ensures if lines == old(lines) then dirty == old(dirty) else dirty
    {
      hide Flat, InsertText;
      ghost var s := Here();
      ghost var line := lines[cy];
      ghost var n: nat := 0;
      BlanksNone(s);
      for i := 0 to 4
        invariant SpotOk(Here()) && cy == s.cy
        invariant n == if |line| + i < MAX_COL then i else MAX_COL - 1 - |line|
        invariant Here() == WithBlanks(s, n)
        invariant if n == 0 then dirty == old(dirty) else dirty
      {
        BlanksNext(s, n);
        InsertChar(BLANK);
        if |line| + n + 1 < MAX_COL { n := n + 1; }
      }
      BlanksText(s, n);
    }

    // ---- cursor movement (editor/editor.c:360-392, 508-541) ----

    method MoveWordFwd()
      requires SpotOk(Here())
      modifies this`cx, this`cy
      ensures SpotOk(Here())
    {
      var line := lines[cy];
      if cx < |line| {
        var e := ScanRun(line, cx, IsWordChar(line[cx]));
        cx := ScanBlanks(line, e);
      } else if cy + 1 < |lines| {
        cy := cy + 1;
        cx := 0;
      }
    }

    method MoveWordBack()
      requires SpotOk(Here())
      modifies this`cx, this`cy
      ensures SpotOk(Here())
    {
      if cx > 0 {
        var line := lines[cy];
        cx := cx - 1;
        while cx > 0 && line[cx] == BLANK
          invariant cx < |line| && cy == old(cy)
        {
          cx := cx - 1;
        }
        var word := IsWordChar(line[cx]);
        while cx > 0 && IsWordChar(line[cx - 1]) == word
          invariant cx < |line| && cy == old(cy)
        {
          cx := cx - 1;
        }
      } else if cy > 0 {
        cy := cy - 1;
        cx := if |lines[cy]| > 0 then |lines[cy]| - 1 else 0;
      }
    }

    method MoveCursor(key: int)
      requires SpotOk(Here()) && mode == NORMAL
      modifies this`cx, this`cy
      ensures SpotOk(Here())
    {
      hide TextOk;
      var len := |lines[cy]|;
      if key == 'h' as int || key == KEY_LEFT {
        if cx > 0 { cx := cx - 1; }
      } else if key == 'l' as int || key == KEY_RIGHT {
        if cx + 1 < len { cx := cx + 1; }
      } else if key == 'j' as int || key == KEY_DOWN {
        if cy + 1 < |lines| { cy := cy + 1; ClampCx(); }
      } else if key == 'k' as int || key == KEY_UP {
        if cy > 0 { cy := cy - 1; ClampCx(); }
      } else if key == '0' as int || key == KEY_HOME {
        cx := 0;
      } else if key == '$' as int || key == KEY_END {
        cx := if len > 0 then len - 1 else 0;
      } else if key == '^' as int {
        cx := ScanBlanks(lines[cy], 0);
      } else if key == 'w' as int {
        MoveWordFwd();
        ClampCx();
      } else if key == 'b' as int {
        MoveWordBack();
      } else if key == 'G' as int {
        cy := |lines| - 1;
        cx := 0;
      } else if key == KEY_PAGE_UP {
        cy := if cy >= VIM_ROWS then cy - VIM_ROWS else 0;
        ClampCx();
      } else if key == KEY_PAGE_DOWN {
        cy := if cy + VIM_ROWS < |lines| then cy + VIM_ROWS else |lines| - 1;
        ClampCx();
      }
    }

    // ---- search (editor/editor.c:396-424, 639-659) ----

    /** The cursor goes to the first match from the start of the current line on, downwards and around. */
    method SearchFirst() returns (found: bool, ghost hops: nat)
      requires SpotOk(Here()) && |search| > 0
      modifies this`cx, this`cy
      ensures SpotOk(Here())
      ensures found ==> hops < |lines| && FirstMatch(lines, search, old(cy), 0, cy, cx, hops)
      ensures !found ==> Here() == old(Here()) && forall y :: 0 <= y < |lines| ==> NoMatch(lines[y], 0, search)
    {
      hide Wrap, NoMatch, MatchAt, TextOk;
      var n, from := |lines|, cy;
      ghost var _ := WrapReaches(from, from, n);
      hops := 0;
      for i := 0 to n
        invariant cy == from && cx == old(cx)
        invariant forall j :: 0 <= j < i ==> NoMatch(lines[Wrap(from, j, n)], 0, search)
      {
        var ly := Wrap(from, i, n);
        var p := Strstr(lines[ly], 0, search);
        if p.Some? {
          cy, cx, hops := ly, p.value, i;
          MatchInside(lines[ly], p.value, search);
          return true, hops;
        }
      }
      AllAround(from, n, lines, search);
      found := false;
    }

    /** The first match after the cursor, downwards and around to the whole current line. */
    method SearchNext() returns (found: bool, ghost hops: nat)
      requires SpotOk(Here())
      modifies this`cx, this`cy
      ensures SpotOk(Here())
      ensures found ==> |search| > 0 && FirstMatch(lines, search, old(cy), old(cx) + 1, cy, cx, hops)
      ensures !found ==> Here() == old(Here())
      ensures !found && |search| > 0 ==> forall y :: 0 <= y < |lines| ==> NoMatch(lines[y], 0, search)
    {
      hops := 0;
      if |search| == 0 { return false, hops; }
      hide Wrap, NoMatch, MatchAt, TextOk;
      var n, from := |lines|, cy;
      ghost var _ := WrapReaches(from, from, n);
      for i := 0 to n + 1
        invariant cy == from && cx == old(cx)
        invariant i > 0 ==> NoMatch(lines[from], cx + 1, search)
        invariant forall j :: 1 <= j < i ==> NoMatch(lines[Wrap(from, j, n)], 0, search)
      {
        var ly := Wrap(from, i, n);
        var col := if i == 0 then cx + 1 else 0;
        if col <= |lines[ly]| {
          var p := Strstr(lines[ly], col, search);
          if p.Some? {
            cy, cx, hops := ly, p.value, i;
            MatchInside(lines[ly], p.value, search);
            return true, hops;
          }
        } else {
          PastEnd(lines[ly], col, search);
        }
      }
      AllAround(from, n, lines, search);
      found := false;
    }

    /** The last match before the cursor, upwards and around; of the current line only what is before the cursor. */
    method SearchBack() returns (found: bool, ghost hops: nat)
      requires SpotOk(Here())
      modifies this`cx, this`cy
      ensures SpotOk(Here())
      ensures found ==> |search| > 0 && LastMatch(lines, search, old(cy), old(cx), cy, cx, hops)
      ensures !found ==> Here() == old(Here())
      ensures !found && |search| > 0 ==>
                && (forall y :: 0 <= y < |lines| && y != cy ==> NoMatch(lines[y], 0, search))
                && forall k :: 0 <= k < cx ==> !MatchAt(lines[cy], k, search)
    {
      hops := 0;
      if |search| == 0 { return false, hops; }
      hide Back, NoMatch, MatchAt, TextOk;
      var n, from := |lines|, cy;
      for i := 1 to n + 1
        invariant cy == from && cx == old(cx)
        invariant forall j :: 1 <= j < i && j < n ==> NoMatch(lines[Back(from, j, n)], 0, search)
        invariant i == n + 1 ==> forall k :: 0 <= k < cx ==> !MatchAt(lines[cy], k, search)
      {
        var ly := Back(from, i, n);
        BackHome(from, i, n);
        var bound := if ly == cy then cx else |lines[ly]|;
        var p := MatchBefore(lines[ly], bound, search);
        if p.Some? {
          cy, cx, hops := ly, p.value, i;
          MatchInside(lines[ly], p.value, search);
          return true, hops;
        }
        if i < n {
          NoneBefore(lines[ly], search);
        }
      }
      AllBack(from, n, lines, search);
      found := false;
    }

    // ---- normal mode (editor/editor.c:456-672) ----

    method PendingDelete(key: int)
      requires Valid() && running && mode == NORMAL && pending == 'd' as int
      modifies this
      ensures Valid() && KeyStep(old(Now()), key, Now()) && disk == old(disk)
    {
      hide Flat, TextOk, Loaded, WordEnd, CutText, DropText, Synced, IsUndo, PendingAfter, CmdAfter, SearchAfter,
           ModeAfter, TextAfter, YankAfter;
      ghost var a := Now();
      AfterPending(a, key);
      var line := lines[cy];
      pending := 0;
      if key == 'd' as int {
        SaveUndo();
        yank := Some(line);
        DeleteLine();
      } else if key == 'w' as int {
        SaveUndo();
        var e := WordStop(line, cx, true);
        if cx < |line| { dirty := true; }
        CutRange(cx, e);
      } else if key == '$' as int {
        SaveUndo();
        DeleteToEol();
      } else if key == '0' as int {
        SaveUndo();
        CutRange(0, |line|);
        cx := 0;
        dirty := true;
      } else {
        assert PlainStep(a, key, Now());
        PlainIsStep(a, key, Now());
        return;
      }
      assert EditStep(a, key, Now());
      EditIsStep(a, key, Now());
    }

    method PendingChange(key: int)
      requires Valid() && running && mode == NORMAL && pending == 'c' as int
      modifies this
      ensures Valid() && KeyStep(old(Now()), key, Now()) && disk == old(disk)
    {
      hide Flat, TextOk, Loaded, WordEnd, CutText, DropText, Synced, IsUndo, PendingAfter, CmdAfter, SearchAfter,
           ModeAfter, TextAfter, YankAfter;
      ghost var a := Now();
      AfterPending(a, key);
      var line := lines[cy];
      pending := 0;
      if key == 'c' as int {
        SaveUndo();
        yank := Some(line);
        CutRange(0, |line|);
        cx := 0;
        dirty := true;
        mode := INSERT;
      } else if key == 'w' as int {
        SaveUndo();
        var e := WordStop(line, cx, false);
        if cx < |line| { dirty := true; }
        CutRange(cx, e);
        mode := INSERT;
      } else {
        assert PlainStep(a, key, Now());
        PlainIsStep(a, key, Now());
        return;
      }
      assert EditStep(a, key, Now());
      EditIsStep(a, key, Now());
    }

    /** The second key of a command other than d and c. */
    method PendingOther(key: int)
      requires Valid() && running && mode == NORMAL && pending !in [0, 'd' as int, 'c' as int]
      modifies this
      ensures Valid() && KeyStep(old(Now()), key, Now()) && disk == old(disk)
    {
      hide Flat, TextOk, Loaded, CutText, SetText, LineText, Synced, IsUndo, PendingAfter, CmdAfter, SearchAfter,
           ModeAfter, TextAfter, YankAfter;
      ghost var a := Now();
      AfterPending(a, key);
      var p := pending;
      pending := 0;
      if p == 'g' as int {
        if key == 'g' as int { cy, cx := 0, 0; }
      } else if p == 'y' as int {
        if key == 'y' as int { yank := Some(lines[cy]); }
      } else if p == 'r' as int {
        if 32 <= key < 127 && cx < |lines[cy]| {
          SaveUndo();
          ReplacedOk(Here(), key);
          lines := lines[cy := SetByte(lines[cy], cx, key)];
          dirty := true;
          assert EditStep(a, key, Now());
          EditIsStep(a, key, Now());
          return;
        }
      }
      assert PlainStep(a, key, Now());
      PlainIsStep(a, key, Now());
    }

    /** i a A I */
    method EnterInsert(key: int)
      requires Valid() && running && mode == NORMAL && pending == 0
      requires InsertKey(key)
      modifies this
      ensures Valid() && KeyStep(old(Now()), key, Now()) && disk == old(disk)
    {
      hide Flat, TextOk, Loaded, CommandText, PendingText, Synced, IsUndo, PendingAfter, CmdAfter, SearchAfter,
           ModeAfter, TextAfter, YankAfter;
      ghost var a := Now();
      AfterCommand(a, key);
      var line := lines[cy];
      SaveUndo();
      if key == 'a' as int {
        if cx < |line| { cx := cx + 1; }
      } else if key == 'A' as int {
        cx := |line|;
      } else if key == 'I' as int {
        cx := ScanBlanks(line, 0);
      }
      mode := INSERT;
      NoCommandText(a.here, a.yank, key);
      assert EditStep(a, key, Now());
      EditIsStep(a, key, Now());
    }

    /** s S C */
    method ChangeInsert(key: int)
      requires Valid() && running && mode == NORMAL && pending == 0
      requires ChangeKey(key)
      modifies this
      ensures Valid() && KeyStep(old(Now()), key, Now()) && disk == old(disk)
    {
      hide Flat, TextOk, Loaded, CutText, SetText, LineText, Synced, IsUndo, PendingAfter, CmdAfter, SearchAfter,
           ModeAfter, TextAfter, YankAfter;
      ghost var a := Now();
      AfterCommand(a, key);
      var line := lines[cy];
      SaveUndo();
      if key == 's' as int {
        if |line| > 0 && cx < |line| {
          CutRange(cx, cx + 1);
          dirty := true;
        }
      } else if key == 'S' as int {
        yank := Some(line);
        CutRange(0, |line|);
        cx := 0;
        dirty := true;
      } else {
        CutRange(cx, |line|);
        dirty := true;
      }
      mode := INSERT;
      assert EditStep(a, key, Now());
      EditIsStep(a, key, Now());
    }

    /** o O p P */
    method AddLine(key: int)
      requires Valid() && running && mode == NORMAL && pending == 0
      requires LineKey(key)
      modifies this
      ensures Valid() && KeyStep(old(Now()), key, Now()) && disk == old(disk)
    {
      hide Flat, TextOk, Loaded, CutText, SetText, LineText, Synced, IsUndo, PendingAfter, CmdAfter, SearchAfter,
           ModeAfter, TextAfter, YankAfter;
      ghost var a := Now();
      AfterCommand(a, key);
      SaveUndo();
      var paste := key == 'p' as int || key == 'P' as int;
      if |lines| < MAX_LINES && (!paste || yank.Some?) {
        var l: Line := if paste then yank.value else [];
        NoBytes();
        OpenLine(l, key == 'o' as int || key == 'p' as int);
        dirty := true;
        if !paste { mode := INSERT; }
      }
      assert EditStep(a, key, Now());
      EditIsStep(a, key, Now());
    }

    /** x X D J */
    method EditText(key: int)
      requires Valid() && running && mode == NORMAL && pending == 0
      requires CutKey(key)
      modifies this
      ensures Valid() && KeyStep(old(Now()), key, Now()) && disk == old(disk)
    {
      hide Flat, TextOk, Loaded, CutText, SetText, LineText, Synced, IsUndo, PendingAfter, CmdAfter, SearchAfter,
           ModeAfter, TextAfter, YankAfter;
      ghost var a := Now();
      AfterCommand(a, key);
      var line := lines[cy];
      if key == 'x' as int && |line| > 0 && cx < |line| {
        SaveUndo();
        CutRange(cx, cx + 1);
        ClampCx();
        dirty := true;
      } else if key == 'X' as int && cx > 0 {
        SaveUndo();
        CutRange(cx - 1, cx);
        cx := cx - 1;
        dirty := true;
      } else if key == 'D' as int {
        SaveUndo();
        DeleteToEol();
      } else if key == 'J' as int && cy + 1 < |lines| {
        SaveUndo();
        JoinNext();
      } else {
        assert PlainStep(a, key, Now());
        PlainIsStep(a, key, Now());
        return;
      }
      assert EditStep(a, key, Now());
      EditIsStep(a, key, Now());
    }

    method JoinNext()
      requires SpotOk(Here()) && cy + 1 < |lines|
      modifies this`lines, this`cx, this`dirty
      ensures SpotOk(Here()) && Flat(lines) == if |old(lines[cy])| + |old(lines[cy + 1])| + 1 < MAX_COL
              then SetText(old(Here()), |old(lines[cy])|, BLANK) else old(Flat(lines))
      ensures if lines == old(lines) then dirty == old(dirty) else dirty
    {
      hide Flat;
      var line, next := lines[cy], lines[cy + 1];
      if |line| + |next| + 1 < MAX_COL {
        LinesSpaced(lines, cy);
        lines := lines[..cy] + [line + [BLANK] + next] + lines[cy + 2..];
        assert |lines| == |old(lines)| - 1;
        cx := |line|;
        dirty := true;
      }
    }

    /** The keys that leave the text alone: movement, search and mode changes. */
    method PlainKey(key: int)
      requires Valid() && running && mode == NORMAL && pending == 0
      requires !EditKey(key) && key != 'u' as int && key != KEY_CTRL_S && key != KEY_CTRL_Q
      modifies this
      ensures Valid() && KeyStep(old(Now()), key, Now()) && disk == old(disk)
    {
      hide Flat, TextOk, Loaded, CommandText, Synced;
      ghost var a := Now();
      if StartsPending(key) {
        pending := key;
      } else if key == '/' as int {
        mode, search := VSEARCH, [];
      } else if key == ':' as int {
        mode, cmd := COMMAND, "";
      } else if key == 'n' as int {
        var _, _ := SearchNext();
      } else if key == 'N' as int {
        var _, _ := SearchBack();
      } else {
        MoveCursor(key);
      }
      PlainText(a, key);
      assert PlainStep(a, key, Now());
      PlainIsStep(a, key, Now());
    }

    method HandleNormal(key: int, ok: bool)
      requires Valid() && running && mode == NORMAL
      modifies this
      ensures Valid() && Handled(old(Now()), key, ok, Now())
    {
      hide Sane, SpotOk, TextAfter, Recorded, Marked, Leaves, CmdAfter, SearchAfter, YankAfter, ModeAfter, PendingAfter,
           Saves;
      ghost var a := Now();
      if pending == 'd' as int {
        PendingDelete(key);
      } else if pending == 'c' as int {
        PendingChange(key);
      } else if pending != 0 {
        PendingOther(key);
      } else if InsertKey(key) {
        EnterInsert(key);
      } else if ChangeKey(key) {
        ChangeInsert(key);
      } else if LineKey(key) {
        AddLine(key);
      } else if CutKey(key) {
        EditText(key);
      } else if key == 'u' as int {
        DoUndo();
      } else if key == KEY_CTRL_S {
        var _ := SaveFile(ok);
        SaveIsStep(a, Now(), ok);
      } else if key == KEY_CTRL_Q {
        if !dirty { running := false; }
        QuitIsStep(a, Now());
      } else {
        PlainKey(key);
      }
    }

    // ---- command line and search line (editor/editor.c:428-452, 712-751) ----

    /** exec_cmd: Enter on the command line. */
    method ExecCmd(ok: bool)
      requires Valid() && running && mode == COMMAND
      modifies this
      ensures Valid() && Handled(old(Now()), KEY_ENTER, ok, Now())
      ensures IsNumber(old(cmd)) ==>
                var n := Value(old(cmd)) % 0x1_0000_0000;
                Here() == if 1 <= n <= |lines| then Spot(lines, 0, n - 1) else old(Here())
    {
      hide Flat, TextOk, Loaded, Synced, IsNumber, Value, Leaves, SpotOk, Written;
      ghost var a := Now();
      SaneSpot(a);
      NumberIsNoWord(cmd);
      if cmd == "w" || cmd == "write" {
        var _ := SaveFile(ok);
        StaysIn(a, Now());
        WriteDone(a, ok, Now());
      } else if cmd == "q" || cmd == "quit" {
        if !dirty { running := false; }
        QuitLeaves(a, Now());
        NoWrite(a, ok, Now());
      } else if cmd == "q!" {
        running := false;
        QuitLeaves(a, Now());
        NoWrite(a, ok, Now());
      } else if cmd == "wq" || cmd == "x" || cmd == "wq!" {
        var saved := SaveFile(ok);
        if saved { running := false; }
        WriteLeaves(a, Now());
        WriteDone(a, ok, Now());
      } else {
        GoToLine();
        StaysIn(a, Now());
        NoWrite(a, ok, Now());
      }
      ghost var b := Now();
      mode := NORMAL;
      cmd := "";
      LeavesSame(a, b, Now());
      WrittenSame(a, ok, b, Now());
      assert ExecStep(a, Now());
      ExecIsStep(a, Now());
    }

    /** A number on the command line (editor/editor.c:442-448). */
    method GoToLine()
      requires SpotOk(Here())
      modifies this`cx, this`cy
      ensures SpotOk(Here())
      ensures if IsNumber(cmd) && 1 <= Value(cmd) % 0x1_0000_0000 <= |lines|
              then cx == 0 && cy == Value(cmd) % 0x1_0000_0000 - 1 else Here() == old(Here())
    {
      hide IsNumber, Value;
      var n := ParseNumber(cmd);
      if n.Some? && 1 <= n.value <= |lines| { cy, cx := n.value - 1, 0; }
    }

    method HandleCommand(key: int, ok: bool)
      requires Valid() && running && mode == COMMAND
      modifies this
      ensures Valid() && Handled(old(Now()), key, ok, Now())
    {
      hide Flat, TextOk, Loaded, Synced;
      ghost var a := Now();
      if key == KEY_ENTER {
        ExecCmd(ok);
        return;
      } else if key == KEY_ESCAPE {
        mode, cmd := NORMAL, "";
      } else if key == KEY_BACKSPACE {
        if |cmd| > 0 { cmd := cmd[..|cmd| - 1]; } else { mode := NORMAL; }
      } else if 32 <= key < 127 && |cmd| + 1 < 80 {
        cmd := cmd + [key as char];
      }
      assert PlainStep(a, key, Now());
      PlainIsStep(a, key, Now());
    }

    method HandleSearch(key: int)
      requires Valid() && running && mode == VSEARCH
      modifies this
      ensures Valid() && KeyStep(old(Now()), key, Now()) && disk == old(disk)
    {
      hide Flat, TextOk, Loaded, Synced;
      ghost var a := Now();
      if key == KEY_ESCAPE {
        mode, search := NORMAL, [];
      } else if key == KEY_ENTER {
        mode := NORMAL;
        if |search| > 0 { var _, _ := SearchFirst(); }
      } else if key == KEY_BACKSPACE {
        if |search| > 0 { search := search[..|search| - 1]; } else { mode := NORMAL; }
      } else if 32 <= key < 127 && |search| + 1 < 64 {
        search := search + [key];
      }
      assert PlainStep(a, key, Now());
      PlainIsStep(a, key, Now());
    }

    // ---- the editor's loop (editor/editor.c:763-772) ----

    method HandleKey(key: int, ok: bool)
      requires Valid() && running
      modifies this
      ensures Valid() && Handled(old(Now()), key, ok, Now())
    {
      hide Sane, KeyStep, SpotOk, Saves;
      match mode
      case NORMAL => HandleNormal(key, ok);
      case INSERT => HandleInsert(key);
      case COMMAND => HandleCommand(key, ok);
      case VSEARCH => HandleSearch(key);
    }

    /**
     * editor_open's loop over the keys that arrive, writes[i] being whether a write
     * during key i succeeds. Every state it goes through is in bounds, and unless the
     * last key was Enter on the command line q! it is left only with the text in the file.
     */
    method Loop(keys: seq<int>, writes: seq<bool>) returns (ghost vs: seq<View>)
      requires Valid() && running && |writes| == |keys|
      modifies this
      ensures Valid() && 1 <= |vs| <= |keys| + 1
      ensures vs[0] == old(Now()) && vs[|vs| - 1] == Now() && Run(vs, keys[..|vs| - 1], writes[..|vs| - 1])
      ensures running ==> |vs| == |keys| + 1
      ensures !running ==> |vs| >= 2 && (Forces(vs[|vs| - 2], keys[|vs| - 2]) || Synced(disk, lines))
    {
      hide Sane, Handled, SpotOk, Synced;
      vs := [Now()];
      ghost var ks: seq<int>, oks: seq<bool> := [], [];
      var i := 0;
      RunStarts(Now());
      while running && i < |keys|
        invariant Valid() && i <= |keys| && |vs| == i + 1 && ks == keys[..i] && oks == writes[..i]
        invariant vs[0] == old(Now()) && vs[i] == Now() && Run(vs, ks, oks)
        invariant !running ==> i > 0
        decreases |keys| - i
      {
        SaneSpot(Now());
        HandleKey(keys[i], writes[i]);
        RunGrows(vs, ks, oks, keys[i], writes[i], Now());
        vs := vs + [Now()];
        ks := ks + [keys[i]];
        oks := oks + [writes[i]];
        assert keys[..i + 1] == keys[..i] + [keys[i]];
        assert writes[..i + 1] == writes[..i] + [writes[i]];
        i := i + 1;
      }
      if !running && !Forces(vs[|vs| - 2], keys[|vs| - 2]) {
        QuitSaved(vs, ks, oks);
      }
    }
  }

  ghost function WithBlanks(s: Spot, n: nat): Spot
    requires SpotOk(s)
  {
    var line := s.lines[s.cy];
    Spot(s.lines[s.cy := line[..s.cx] + Blanks(n) + line[s.cx..]], s.cx + n, s.cy)
  }

  lemma BlanksNone(s: Spot)
    requires SpotOk(s)
    ensures WithBlanks(s, 0) == s
  {
    var line := s.lines[s.cy];
    assert line[..s.cx] + Blanks(0) + line[s.cx..] == line;
  }

  lemma BlanksNext(s: Spot, n: nat)
    requires SpotOk(s)
    ensures |WithBlanks(s, n).lines[s.cy]| == |s.lines[s.cy]| + n
    ensures var w := WithBlanks(s, n);
            WithBlanks(s, n + 1) == Spot(w.lines[w.cy := w.lines[w.cy][..w.cx] + [BLANK] + w.lines[w.cy][w.cx..]], w.cx
              + 1, w.cy)
  {
    var line, w := s.lines[s.cy], WithBlanks(s, n);
    assert Blanks(n + 1) == Blanks(n) + [BLANK];
    assert w.lines[w.cy][..w.cx] == line[..s.cx] + Blanks(n);
    assert w.lines[w.cy][w.cx..] == line[s.cx..];
    assert line[..s.cx] + Blanks(n + 1) + line[s.cx..] == line[..s.cx] + Blanks(n) + [BLANK] + line[s.cx..];
  }

  lemma BlanksText(s: Spot, n: nat)
    requires SpotOk(s) && n == TabWidth(s.lines[s.cy])
    ensures Flat(WithBlanks(s, n).lines) == InsertText(s, KEY_TAB)
    ensures n > 0 ==> WithBlanks(s, n).lines != s.lines
  {
    hide Flat;
    AddInLine(s.lines, s.cy, s.cx, Blanks(n));
    assert |WithBlanks(s, n).lines[s.cy]| == |s.lines[s.cy]| + n;
  }

  lemma TypedText(s: Spot, key: int)
    requires SpotOk(s) && Printable(key)
    ensures var line := s.lines[s.cy];
            InsertText(s, key) ==
              if |line| + 1 < MAX_COL then Flat(s.lines[s.cy := line[..s.cx] + [key] + line[s.cx..]]) else Flat(s.lines)
  {
    hide Flat;
    AddInLine(s.lines, s.cy, s.cx, [key]);
  }

  lemma Untyped(s: Spot, key: int)
    requires SpotOk(s)
    ensures key !in [KEY_ENTER, KEY_BACKSPACE, KEY_DELETE, KEY_TAB] && !Printable(key) ==>
              InsertText(s, key) == Flat(s.lines)
  {
    hide Flat;
  }

  ghost predicate InsertStep(a: View, key: int, b: View) {
    && SpotOk(a.here) && SpotOk(b.here) && a.mode == INSERT
    && b == a.(here := b.here, dirty := b.dirty, mode := ModeAfter(a, key))
    && Flat(b.here.lines) == InsertText(a.here, key)
    && (b.dirty || (!a.dirty && b.here.lines == a.here.lines))
  }

  lemma InsertIsStep(a: View, key: int, b: View)
    requires Sane(a) && a.running && InsertStep(a, key, b)
    ensures Sane(b) && KeyStep(a, key, b)
  {
    hide Flat, InsertText, Loaded, TextOk;
  }

  /** No match at column from or later. */
  predicate NoMatch(line: Line, from: nat, pat: seq<byte>) {
    forall k: nat :: from <= k <= |line| ==> !MatchAt(line, k, pat)
  }

  /** The match at (y, k), i lines below line from, is the first one from column col of that line on. */
  ghost predicate FirstMatch(lines: seq<Line>, pat: seq<byte>, from: nat, col: nat, y: nat, k: nat, i: nat) {
    var n := |lines|;
    && from < n && i <= n && y == Wrap(from, i, n) && MatchAt(lines[y], k, pat)
    && (i == 0 ==> col <= k)
    && (forall c: nat :: (if i == 0 then col else 0) <= c < k ==> !MatchAt(lines[y], c, pat))
    && (i > 0 ==> NoMatch(lines[from], col, pat))
    && (forall j :: 1 <= j < i ==> NoMatch(lines[Wrap(from, j, n)], 0, pat))
  }

  /** The match at (y, k), i lines above line from, is the last one before column col of that line. */
  ghost predicate LastMatch(lines: seq<Line>, pat: seq<byte>, from: nat, col: nat, y: nat, k: nat, i: nat) {
    var n := |lines|;
    && from < n && 1 <= i <= n && y == Back(from, i, n) && MatchAt(lines[y], k, pat)
    && (i == n ==> k < col)
    && (forall c: nat :: k < c < (if i == n then col else |lines[y]|) ==> !MatchAt(lines[y], c, pat))
    && (forall j :: 1 <= j < i ==> NoMatch(lines[Back(from, j, n)], 0, pat))
  }

  lemma MatchInside(line: Line, k: nat, pat: seq<byte>)
    requires MatchAt(line, k, pat)
    ensures k <= |line|
  {
  }

  lemma PastEnd(line: Line, col: nat, pat: seq<byte>)
    requires col > |line|
    ensures NoMatch(line, col, pat)
  {
  }

  lemma NoneBefore(line: Line, pat: seq<byte>)
    requires pat != [] && forall k: nat :: k < |line| ==> !MatchAt(line, k, pat)
    ensures NoMatch(line, 0, pat)
  {
  }

  /** The inner loop of N: the last match before bound (editor/editor.c:649-655). */
  method MatchBefore(line: Line, bound: nat, pat: seq<byte>) returns (r: Option<nat>)
    requires bound <= |line|
    ensures r.Some? ==> r.value < bound && MatchAt(line, r.value, pat)
    ensures forall k: nat :: (if r.Some? then r.value + 1 else 0) <= k < bound ==> !MatchAt(line, k, pat)
  {
    var col: int := bound - 1;
    while col >= 0
      invariant -1 <= col < bound
      invariant forall k: nat :: col < k < bound ==> !MatchAt(line, k, pat)
    {
      var p := Strstr(line, col, pat);
      if p == Some(col) {
        return p;
      }
      col := col - 1;
    }
    r := None;
  }

  /** The line i steps below line from, wrapping around. */
  function Wrap(from: nat, i: nat, n: nat): (r: nat)
    requires n > 0
    ensures r < n
    ensures from < n && from + i < n ==> r == from + i
  {
    (from + i) % n
  }

  lemma WrapReaches(from: nat, y: nat, n: nat) returns (i: nat)
    requires from < n && y < n
    ensures i < n && Wrap(from, i, n) == y && (i == 0 <==> y == from)
    ensures Wrap(from, n, n) == from
  {
    i := if y >= from then y - from else y + n - from;
    ModUnique(from + i, if y >= from then 0 else 1, y, n);
    ModUnique(from + n, 1, from, n);
  }

  lemma AllAround(from: nat, n: nat, lines: seq<Line>, pat: seq<byte>)
    requires from < n == |lines|
    requires forall j :: 1 <= j < n ==> NoMatch(lines[Wrap(from, j, n)], 0, pat)
    requires NoMatch(lines[from], 0, pat)
    ensures forall y :: 0 <= y < n ==> NoMatch(lines[y], 0, pat)
  {
    hide Wrap, NoMatch;
    forall y | 0 <= y < n ensures NoMatch(lines[y], 0, pat) {
      var i := WrapReaches(from, y, n);
    }
  }

  /** The line i steps above line from, wrapping around. */
  function Back(from: nat, i: nat, n: nat): (r: nat)
    requires n > 0 && i <= n
    ensures r < n
  {
    (from + n - i) % n
  }

  /** Going up i lines comes back to the start exactly after all n. */
  lemma BackHome(from: nat, i: nat, n: nat)
    requires from < n && 1 <= i <= n
    ensures Back(from, i, n) == from <==> i == n
  {
    ModUnique(from + n - i, if from >= i then 1 else 0, if from >= i then from - i else from + n - i, n);
  }

  lemma BackReaches(from: nat, y: nat, n: nat) returns (i: nat)
    requires from < n && y < n && y != from
    ensures 1 <= i < n && Back(from, i, n) == y
  {
    i := if y < from then from - y else from + n - y;
    ModUnique(from + n - i, if y < from then 1 else 0, y, n);
  }

  lemma AllBack(from: nat, n: nat, lines: seq<Line>, pat: seq<byte>)
    requires from < n == |lines|
    requires forall j :: 1 <= j < n ==> NoMatch(lines[Back(from, j, n)], 0, pat)
    ensures forall y :: 0 <= y < n && y != from ==> NoMatch(lines[y], 0, pat)
  {
    hide Back, NoMatch;
    forall y | 0 <= y < n && y != from ensures NoMatch(lines[y], 0, pat) {
      var i := BackReaches(from, y, n);
    }
  }

  method ScanRun(line: Line, i: nat, word: bool) returns (r: nat)
    requires i <= |line|
    ensures r == RunEnd(line, i, word)
  {
    r := i;
    while r < |line| && IsWordChar(line[r]) == word
      invariant i <= r <= |line|
      invariant RunEnd(line, r, word) == RunEnd(line, i, word)
    {
      r := r + 1;
    }
  }

  method ScanBlanks(line: Line, i: nat) returns (r: nat)
    requires i <= |line|
    ensures r == BlankEnd(line, i)
  {
    r := i;
    while r < |line| && line[r] == BLANK
      invariant i <= r <= |line|
      invariant BlankEnd(line, r) == BlankEnd(line, i)
    {
      r := r + 1;
    }
  }

  /** The scan of dw and cw (editor/editor.c:470-472, 498-499). */
  method WordStop(line: Line, cx: nat, blanks: bool) returns (e: nat)
    requires cx <= |line|
    ensures e == WordEnd(line, cx, blanks)
  {
    e := cx;
    if cx < |line| {
      e := ScanRun(line, cx, IsWordChar(line[cx]));
      if blanks { e := ScanBlanks(line, e); }
    }
  }

  lemma ReplacedOk(s: Spot, key: int)
    requires SpotOk(s) && s.cx < |s.lines[s.cy]| && Printable(key)
    ensures var ls := s.lines[s.cy := SetByte(s.lines[s.cy], s.cx, key)];
            SpotOk(s.(lines := ls)) && Flat(ls) == SetText(s, s.cx, key)
  {
    hide Flat;
    SetInLine(s.lines, s.cy, s.cx, key);
  }

  lemma NoCommandText(s: Spot, yank: Option<Line>, key: int)
    requires SpotOk(s) && (InsertKey(key) || !EditKey(key))
    ensures CommandText(s, yank, key) == Flat(s.lines)
  {
  }

  lemma YankOk(a: View, key: int)
    requires Sane(a)
    ensures YankAfter(a, key).Some? ==> LineOk(YankAfter(a, key).value)
  {
  }

  lemma NothingCut(s: Spot, at: nat)
    requires SpotOk(s) && at <= |s.lines[s.cy]|
    ensures CutText(s, at, at) == Flat(s.lines)
  {
    hide Flat;
    Around(s.lines, s.cy);
  }

  lemma NoBytes()
    ensures LineOk([]) && [] + [NEWLINE] == [NEWLINE]
  {
  }

  /** The second key of a command touches neither the command line nor the search line. */
  lemma AfterPending(a: View, key: int)
    requires SpotOk(a.here) && a.mode == NORMAL && a.pending != 0
    ensures !IsUndo(a, key) && PendingAfter(a, key) == 0 && CmdAfter(a, key) == a.cmd && SearchAfter(a, key) == a.search
    ensures ModeAfter(a, key) == if OpensInsert(a, key) then INSERT else NORMAL
    ensures TextAfter(a, key) == PendingText(a.here, a.pending, key)
    ensures YankAfter(a, key) == if YanksLine(a, key) then Some(a.here.lines[a.here.cy]) else a.yank
  {
    hide PendingText;
  }

  lemma AfterCommand(a: View, key: int)
    requires SpotOk(a.here) && a.mode == NORMAL && a.pending == 0 && EditKey(key)
    ensures !IsUndo(a, key) && PendingAfter(a, key) == 0 && CmdAfter(a, key) == a.cmd && SearchAfter(a, key) == a.search
    ensures ModeAfter(a, key) == if OpensInsert(a, key) then INSERT else NORMAL
    ensures TextAfter(a, key) == CommandText(a.here, a.yank, key)
    ensures YankAfter(a, key) == if key == 'S' as int then Some(a.here.lines[a.here.cy]) else a.yank
  {
    hide CommandText;
  }

  /** A step that records the state before it for undo. */
  ghost predicate EditStep(a: View, key: int, b: View) {
    && SpotOk(a.here) && SpotOk(b.here) && a.mode == NORMAL && !IsUndo(a, key)
    && (a.pending == 0 ==> EditKey(key))
    && b == a.(here := b.here, dirty := b.dirty, undo := Some(a.here), yank := YankAfter(a, key),
               mode := ModeAfter(a, key), pending := PendingAfter(a, key))
    && Flat(b.here.lines) == TextAfter(a, key)
    && (b.dirty || (!a.dirty && b.here.lines == a.here.lines))
  }

  lemma EditIsStep(a: View, key: int, b: View)
    requires Sane(a) && a.running && EditStep(a, key, b)
    ensures Sane(b) && KeyStep(a, key, b)
  {
    hide Flat, TextAfter, Loaded, TextOk;
    YankOk(a, key);
  }

  /** A step that leaves the text and the undo buffer alone. */
  ghost predicate PlainStep(a: View, key: int, b: View) {
    && SpotOk(a.here) && SpotOk(b.here) && b.here.lines == a.here.lines
    && (a.mode == NORMAL ==> !OpensInsert(a, key) && !IsUndo(a, key) && (a.pending == 0 ==> key != KEY_CTRL_Q))
    && (a.mode == COMMAND ==> key != KEY_ENTER)
    && b == a.(here := b.here, yank := YankAfter(a, key), mode := ModeAfter(a, key), pending := PendingAfter(a, key),
               cmd := CmdAfter(a, key), search := SearchAfter(a, key))
    && Flat(a.here.lines) == TextAfter(a, key)
  }

  lemma PlainIsStep(a: View, key: int, b: View)
    requires Sane(a) && a.running && PlainStep(a, key, b)
    ensures Sane(b) && KeyStep(a, key, b)
  {
    hide Flat, TextAfter, Loaded, TextOk;
    YankOk(a, key);
  }

  lemma PlainText(a: View, key: int)
    requires SpotOk(a.here) && a.mode == NORMAL && a.pending == 0 && !EditKey(key)
    ensures TextAfter(a, key) == Flat(a.here.lines)
  {
    hide Flat;
  }

  lemma SaveIsStep(a: View, b: View, ok: bool)
    requires Sane(a) && a.mode == NORMAL && a.pending == 0 && a.running
    requires b == if ok then a.(dirty := false, disk := Some(Flat(a.here.lines))) else a
    ensures Sane(b) && SpotOk(a.here) && Handled(a, KEY_CTRL_S, ok, b)
  {
    hide Flat, Loaded, TextOk, TextAfter;
    PlainText(a, KEY_CTRL_S);
  }

  lemma QuitIsStep(a: View, b: View)
    requires Sane(a) && a.mode == NORMAL && a.pending == 0 && a.running
    requires b == a.(running := a.dirty)
    ensures Sane(b) && SpotOk(a.here) && KeyStep(a, KEY_CTRL_Q, b)
  {
    hide Flat, Loaded, TextOk, TextAfter;
    PlainText(a, KEY_CTRL_Q);
  }

  predicate DigitsTo(c: string, i: nat) { i <= |c| && forall j :: 0 <= j < i ==> '0' <= c[j] <= '9' }

  function ValueTo(c: string, i: nat): nat
    requires DigitsTo(c, i)
  {
    Value(c[..i])
  }

  lemma NextDigit(c: string, i: nat)
    requires DigitsTo(c, i) && i < |c| && '0' <= c[i] <= '9'
    ensures DigitsTo(c, i + 1) && ValueTo(c, i + 1) == 10 * ValueTo(c, i) + (c[i] as int - '0' as int)
  {
    assert c[..i + 1][..i] == c[..i];
  }

  lemma Shifted(v: nat, d: nat)
    ensures ((v % 0x1_0000_0000) * 10 + d) % 0x1_0000_0000 == (10 * v + d) % 0x1_0000_0000
  {
    var w := 0x1_0000_0000;
    assert 10 * v + d - (10 * (v / w)) * w == (v % w) * 10 + d;
    ModMultiple(10 * v + d, 10 * (v / w), w);
  }

  lemma AllDigits(c: string)
    ensures DigitsTo(c, |c|) ==> ValueTo(c, |c|) == Value(c)
    ensures DigitsTo(c, |c|) && |c| > 0 <==> IsNumber(c)
  {
    assert c[..|c|] == c;
  }

  /** The digits read into a 32-bit number, which wraps. */
  method ParseNumber(c: string) returns (n: Option<nat>)
    ensures n == if IsNumber(c) then Some(Value(c) % 0x1_0000_0000) else None
  {
    hide ValueTo, Value;
    var v: nat := 0;
    assert ValueTo(c, 0) == 0 by { NoDigits(c); }
    for i := 0 to |c|
      invariant DigitsTo(c, i) && v == ValueTo(c, i) % 0x1_0000_0000
    {
      if !('0' <= c[i] <= '9') { return None; }
      NextDigit(c, i);
      Shifted(ValueTo(c, i), c[i] as int - '0' as int);
      v := (v * 10 + (c[i] as int - '0' as int)) % 0x1_0000_0000;
    }
    AllDigits(c);
    n := if |c| > 0 then Some(v) else None;
  }

  lemma NoDigits(c: string)
    ensures ValueTo(c, 0) == 0
  {
    assert c[..0] == "";
  }

  lemma NumberIsNoWord(c: string)
    ensures IsNumber(c) ==> c != "w" && c != "write" && c != "q" && c != "quit" && c != "q!"
    ensures IsNumber(c) ==> c != "wq" && c != "x" && c != "wq!"
  {
    if IsNumber(c) {
      assert '0' <= c[0] <= '9';
    }
  }

  lemma StaysIn(a: View, b: View)
    requires a.mode == COMMAND && b.running
    requires a.cmd != "q" && a.cmd != "quit" && a.cmd != "q!"
    ensures Leaves(a, KEY_ENTER, b)
  {
    hide Flat;
  }

  lemma QuitLeaves(a: View, b: View)
    requires a.mode == COMMAND && b.dirty == a.dirty
    requires (a.cmd == "q!" && !b.running) || ((a.cmd == "q" || a.cmd == "quit") && b.running == a.dirty)
    ensures Leaves(a, KEY_ENTER, b)
  {
    hide Flat;
  }

  lemma WriteLeaves(a: View, b: View)
    requires a.mode == COMMAND && (a.cmd == "wq" || a.cmd == "x" || a.cmd == "wq!") && (b.running || Saves(a, b))
    ensures Leaves(a, KEY_ENTER, b)
  {
    hide Flat;
  }

  lemma WriteDone(a: View, ok: bool, b: View)
    requires a.mode == COMMAND && Writes(a, KEY_ENTER)
             && (if ok then Saves(a, b) else b.disk == a.disk && b.dirty == a.dirty)
    requires b.running == !(ok && IsWriteQuit(a.cmd))
    ensures Written(a, KEY_ENTER, ok, b)
  {
    hide Flat;
  }

  lemma NoWrite(a: View, ok: bool, b: View)
    requires a.mode == COMMAND && !Writes(a, KEY_ENTER) && b.disk == a.disk
    ensures Written(a, KEY_ENTER, ok, b)
  {
    hide Flat;
  }

  lemma WrittenSame(a: View, ok: bool, b: View, c: View)
    requires Written(a, KEY_ENTER, ok, b) && c == b.(mode := NORMAL, cmd := "")
    ensures Written(a, KEY_ENTER, ok, c)
  {
    hide Flat;
  }

  lemma LeavesSame(a: View, b: View, c: View)
    requires Leaves(a, KEY_ENTER, b) && c == b.(mode := NORMAL, cmd := "")
    ensures Leaves(a, KEY_ENTER, c)
  {
    hide Flat;
  }

  ghost predicate ExecStep(a: View, b: View) {
    && SpotOk(a.here) && SpotOk(b.here) && a.mode == COMMAND && b.here.lines == a.here.lines
    && b == a.(here := b.here, dirty := b.dirty, running := b.running, mode := NORMAL, cmd := "", disk := b.disk)
    && (Saves(a, b) || (b.disk == a.disk && b.dirty == a.dirty))
    && Leaves(a, KEY_ENTER, b)
  }

  lemma ExecIsStep(a: View, b: View)
    requires Sane(a) && a.running && ExecStep(a, b)
    ensures Sane(b) && KeyStep(a, KEY_ENTER, b)
  {
    hide Flat, Loaded, TextOk, Leaves;
  }

  lemma SaneSpot(v: View)
    requires Sane(v)
    ensures SpotOk(v.here)
  {
  }

  lemma RunStarts(v: View)
    requires Sane(v)
    ensures Run([v], [], [])
  {
    hide Sane, Handled;
  }

  lemma RunGrows(vs: seq<View>, ks: seq<int>, oks: seq<bool>, key: int, ok: bool, v: View)
    requires Run(vs, ks, oks) && Sane(v) && Sane(vs[|vs| - 1]) && SpotOk(vs[|vs| - 1].here)
    requires vs[|vs| - 1].running && Handled(vs[|vs| - 1], key, ok, v)
    ensures Run(vs + [v], ks + [key], oks + [ok])
  {
    hide Sane, Handled, SpotOk;
    var ws, ls, os := vs + [v], ks + [key], oks + [ok];
    forall i | 0 <= i < |ls| ensures SpotOk(ws[i].here) && ws[i].running && Handled(ws[i], ls[i], os[i], ws[i + 1]) {
      if i < |ks| { RunStep(vs, ks, oks, i); }
    }
  }
}
