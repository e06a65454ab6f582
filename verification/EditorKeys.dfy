/**
 * What one key does to the editor (editor/editor.c:428-751), said about the flat
 * text, and what that gives for every run of keys: undo, and quitting.
 */
module EditorKeys {
  import opened Bytes
  import opened EditorText
  import opened EditorFlat
  import opened Wrappers

  const KEY_BACKSPACE := 8
  const KEY_TAB := 9
  const KEY_ENTER := 10
  const KEY_ESCAPE := 27
  const KEY_UP := 0x101
  const KEY_DOWN := 0x102
  const KEY_LEFT := 0x103
  const KEY_RIGHT := 0x104
  const KEY_HOME := 0x105
  const KEY_END := 0x106
  const KEY_PAGE_UP := 0x107
  const KEY_PAGE_DOWN := 0x108
  const KEY_DELETE := 0x109
  const KEY_CTRL_S := 0x10A
  const KEY_CTRL_Q := 0x10B

  const BLANK: byte := 32

  datatype Mode = NORMAL | INSERT | COMMAND | VSEARCH

  /** vim_t, with disk the contents the filesystem holds for its path, if any. */
  datatype View = View(here: Spot, dirty: bool, running: bool, mode: Mode, pending: int, cmd: string,
                       yank: Option<Line>, undo: Option<Spot>, search: seq<byte>, disk: Option<seq<byte>>)

  predicate Printable(key: int) { 32 <= key < 127 }

  // ---- words ----

  predicate IsWordChar(c: byte) {
    ('a' as int <= c <= 'z' as int) || ('A' as int <= c <= 'Z' as int) || ('0' as int <= c <= '9' as int)
      || c == '_' as int
  }

  /** Where the run of bytes of one class that starts at i ends. */
  function RunEnd(line: Line, i: nat, word: bool): (r: nat)
    requires i <= |line|
    ensures i <= r <= |line|
    ensures forall j :: i <= j < r ==> IsWordChar(line[j]) == word
    ensures r < |line| ==> IsWordChar(line[r]) != word
    decreases |line| - i
  {
    if i < |line| && IsWordChar(line[i]) == word then RunEnd(line, i + 1, word) else i
  }

  function BlankEnd(line: Line, i: nat): (r: nat)
    requires i <= |line|
    ensures i <= r <= |line|
    ensures forall j :: i <= j < r ==> line[j] == BLANK
    ensures r < |line| ==> line[r] != BLANK
    decreases |line| - i
  {
    if i < |line| && line[i] == BLANK then BlankEnd(line, i + 1) else i
  }

  /** The end of the word at cx; with the blanks after it when asked. */
  function WordEnd(line: Line, cx: nat, blanks: bool): (r: nat)
    requires cx <= |line|
    ensures cx <= r <= |line|
  {
    if cx == |line| then cx
    else
      var e := RunEnd(line, cx, IsWordChar(line[cx]));
      if blanks then BlankEnd(line, e) else e
  }

  // ---- the flat text after a key ----

  function Blanks(n: nat): seq<byte> { seq(n, i => BLANK) }

  /** How many blanks a tab puts in. */
  function TabWidth(line: Line): nat {
    if |line| + 4 < MAX_COL then 4 else if |line| < MAX_COL then MAX_COL - 1 - |line| else 0
  }

  function InsertText(s: Spot, key: int): seq<byte>
    requires SpotOk(s)
  {
    var t, p, line := Flat(s.lines), Pos(s), s.lines[s.cy];
    Around(s.lines, s.cy);
    if key == KEY_ENTER then
      if |s.lines| < MAX_LINES then Added(t, p, [NEWLINE]) else t
    else if key == KEY_BACKSPACE then
      if p > 0 && (s.cx > 0 || |s.lines[s.cy - 1]| + |line| < MAX_COL) then Without(t, p - 1, 1) else t
    else if key == KEY_DELETE then
      if s.cx < |line| || (s.cy + 1 < |s.lines| && |line| + |s.lines[s.cy + 1]| < MAX_COL)
      then Without(t, p, 1) else t
    else if key == KEY_TAB then Added(t, p, Blanks(TabWidth(line)))
    else if Printable(key) && |line| + 1 < MAX_COL then Added(t, p, [key])
    else t
  }

  /** The text without the bytes from..to of the cursor's line. */
  function CutText(s: Spot, from: nat, to: nat): seq<byte>
    requires SpotOk(s) && from <= to <= |s.lines[s.cy]|
  {
    Around(s.lines, s.cy);
    Without(Flat(s.lines), Start(s.lines, s.cy) + from, to - from)
  }

  /** The text without the cursor's line. */
  function DropText(s: Spot): seq<byte>
    requires SpotOk(s)
  {
    Around(s.lines, s.cy);
    Without(Flat(s.lines), Start(s.lines, s.cy), |s.lines[s.cy]| + 1)
  }

  /** The text with byte at of the cursor's line, or the newline that ends it, replaced. */
  function SetText(s: Spot, at: nat, c: byte): seq<byte>
    requires SpotOk(s) && at <= |s.lines[s.cy]|
  {
    Around(s.lines, s.cy);
    Flat(s.lines)[Start(s.lines, s.cy) + at := c]
  }

  /** The text with a line put in above the cursor's line, or below it. */
  function LineText(s: Spot, l: Line, below: bool): seq<byte>
    requires SpotOk(s)
  {
    Around(s.lines, s.cy);
    Added(Flat(s.lines), Start(s.lines, s.cy) + if below then |s.lines[s.cy]| + 1 else 0, l + [NEWLINE])
  }

  function CommandText(s: Spot, yank: Option<Line>, key: int): seq<byte>
    requires SpotOk(s)
  {
    var line := s.lines[s.cy];
    var room := |s.lines| < MAX_LINES;
    if (key == 'x' as int || key == 's' as int) && s.cx < |line| then CutText(s, s.cx, s.cx + 1)
    else if key == 'X' as int && s.cx > 0 then CutText(s, s.cx - 1, s.cx)
    else if key == 'D' as int || key == 'C' as int then CutText(s, s.cx, |line|)
    else if key == 'S' as int then CutText(s, 0, |line|)
    else if key == 'J' as int && s.cy + 1 < |s.lines| && |line| + |s.lines[s.cy + 1]| + 1 < MAX_COL
    then SetText(s, |line|, BLANK)
    else if (key == 'o' as int || key == 'O' as int) && room then LineText(s, [], key == 'o' as int)
    else if (key == 'p' as int || key == 'P' as int) && room && yank.Some?
      then LineText(s, yank.value, key == 'p' as int)
    else Flat(s.lines)
  }

  function PendingText(s: Spot, pending: int, key: int): seq<byte>
    requires SpotOk(s)
  {
    var line := s.lines[s.cy];
    if pending == 'd' as int then
      if key == 'd' as int then (if |s.lines| == 1 then CutText(s, 0, |line|) else DropText(s))
      else if key == 'w' as int then CutText(s, s.cx, WordEnd(line, s.cx, true))
      else if key == '$' as int then CutText(s, s.cx, |line|)
      else if key == '0' as int then CutText(s, 0, |line|)
      else Flat(s.lines)
    else if pending == 'c' as int then
      if key == 'c' as int then CutText(s, 0, |line|)
      else if key == 'w' as int then CutText(s, s.cx, WordEnd(line, s.cx, false))
      else Flat(s.lines)
    else if pending == 'r' as int && Printable(key) && s.cx < |line| then SetText(s, s.cx, key)
    else Flat(s.lines)
  }

  function TextAfter(a: View, key: int): seq<byte>
    requires SpotOk(a.here)
  {
    if a.mode == INSERT then InsertText(a.here, key)
    else if a.mode != NORMAL then Flat(a.here.lines)
    else if a.pending != 0 then PendingText(a.here, a.pending, key)
    else CommandText(a.here, a.yank, key)
  }

  // ---- the rest of the state after a key ----

  predicate IsUndo(a: View, key: int) { a.mode == NORMAL && a.pending == 0 && key == 'u' as int }

  predicate InsertKey(key: int) { key == 'i' as int || key == 'a' as int || key == 'A' as int || key == 'I' as int }

  predicate ChangeKey(key: int) { key == 's' as int || key == 'S' as int || key == 'C' as int }

  predicate LineKey(key: int) { key == 'o' as int || key == 'O' as int || key == 'p' as int || key == 'P' as int }

  predicate CutKey(key: int) { key == 'x' as int || key == 'X' as int || key == 'D' as int || key == 'J' as int }

  predicate EditKey(key: int) { InsertKey(key) || ChangeKey(key) || LineKey(key) || CutKey(key) }

  predicate OpensInsert(a: View, key: int) {
    if a.pending != 0 then a.pending == 'c' as int && (key == 'c' as int || key == 'w' as int)
    else if key == 'o' as int || key == 'O' as int then |a.here.lines| < MAX_LINES
    else InsertKey(key) || ChangeKey(key)
  }

  function ModeAfter(a: View, key: int): Mode {
    match a.mode
    case NORMAL =>
      if OpensInsert(a, key) then INSERT
      else if a.pending == 0 && key == ':' as int then COMMAND
      else if a.pending == 0 && key == '/' as int then VSEARCH
      else NORMAL
    case INSERT => if key == KEY_ESCAPE then NORMAL else INSERT
    case COMMAND =>
      if key == KEY_ESCAPE || key == KEY_ENTER || (key == KEY_BACKSPACE && a.cmd == "") then NORMAL else COMMAND
    case VSEARCH =>
      if key == KEY_ESCAPE || key == KEY_ENTER || (key == KEY_BACKSPACE && a.search == []) then NORMAL else VSEARCH
  }

  predicate StartsPending(key: int) {
    (key == 'd' as int || key == 'g' as int || key == 'y' as int || key == 'c' as int || key == 'r' as int)
  }

  function PendingAfter(a: View, key: int): int {
    if a.mode == NORMAL then (if a.pending == 0 && StartsPending(key) then key else 0) else a.pending
  }

  function CmdAfter(a: View, key: int): string {
    if a.mode == NORMAL && a.pending == 0 && key == ':' as int then ""
    else if a.mode != COMMAND then a.cmd
    else if key == KEY_ESCAPE || key == KEY_ENTER then ""
    else if key == KEY_BACKSPACE then (if |a.cmd| > 0 then a.cmd[..|a.cmd| - 1] else a.cmd)
    else if Printable(key) && |a.cmd| + 1 < 80 then a.cmd + [key as char]
    else a.cmd
  }

  function SearchAfter(a: View, key: int): seq<byte> {
    if a.mode == NORMAL && a.pending == 0 && key == '/' as int then []
    else if a.mode != VSEARCH then a.search
    else if key == KEY_ESCAPE then []
    else if key == KEY_ENTER then a.search
    else if key == KEY_BACKSPACE then (if |a.search| > 0 then a.search[..|a.search| - 1] else a.search)
    else if Printable(key) && |a.search| + 1 < 64 then a.search + [key]
    else a.search
  }

  // ---- numbers on the command line ----

  predicate IsNumber(c: string) { |c| > 0 && forall i :: 0 <= i < |c| ==> '0' <= c[i] <= '9' }

  /** The decimal value of a string of digits. */
  function Value(c: string): nat
    requires forall i :: 0 <= i < |c| ==> '0' <= c[i] <= '9'
  {
    if c == "" then 0 else 10 * Value(c[..|c| - 1]) + (c[|c| - 1] as int - '0' as int)
  }

  predicate YanksLine(a: View, key: int) {
    a.mode == NORMAL &&
    if a.pending == 0 then key == 'S' as int
    else a.pending == key && (key == 'd' as int || key == 'y' as int || key == 'c' as int)
  }

  function YankAfter(a: View, key: int): Option<Line>
    requires SpotOk(a.here)
  {
    if YanksLine(a, key) then Some(a.here.lines[a.here.cy]) else a.yank
  }

  /** A change, or the start of an insert session, leaves the text and cursor before it in the undo buffer. */
  predicate Recorded(a: View, b: View) {
    if a.mode == NORMAL then
      && (b.here.lines != a.here.lines || b.mode == INSERT ==> b.undo == Some(a.here))
      && (b.undo == a.undo || b.undo == Some(a.here))
    else b.undo == a.undo
  }

  /** The file holds the text: it was loaded from it, or written to it. */
  predicate Synced(disk: Option<seq<byte>>, lines: seq<Line>) {
    || disk == Some(Flat(lines))
    || lines == if disk.Some? then Loaded(disk.value) else [[]]
  }

  predicate Saves(a: View, b: View) {
    b.here.lines == a.here.lines && b.disk == Some(Flat(a.here.lines)) && !b.dirty
  }

  /** A changed text is marked dirty, and only a write clears the mark. */
  predicate Marked(a: View, b: View) {
    || Saves(a, b)
    || (b.disk == a.disk && (b.dirty || (!a.dirty && b.here.lines == a.here.lines)))
  }

  /** The commands that leave the editor. */
  predicate Leaves(a: View, key: int, b: View) {
    if a.mode == COMMAND && key == KEY_ENTER && (a.cmd == "q" || a.cmd == "quit") then b.running == b.dirty == a.dirty
    else if a.mode == COMMAND && key == KEY_ENTER && a.cmd == "q!" then !b.running && b.dirty == a.dirty
    else if a.mode == COMMAND && key == KEY_ENTER && (a.cmd == "wq" || a.cmd == "x" || a.cmd == "wq!")
      then b.running || Saves(a, b)
    else if a.mode == NORMAL && a.pending == 0 && key == KEY_CTRL_Q then b.running == b.dirty == a.dirty
    else b.running
  }

  predicate IsWriteQuit(cmd: string) { cmd == "wq" || cmd == "x" || cmd == "wq!" }

  /** The keys that write the file: Ctrl-S, and Enter on a command line that starts a write. */
  predicate Writes(a: View, key: int) {
    || (a.mode == NORMAL && a.pending == 0 && key == KEY_CTRL_S)
    || (a.mode == COMMAND && key == KEY_ENTER && (a.cmd == "w" || a.cmd == "write" || IsWriteQuit(a.cmd)))
  }

  /**
   * A write that succeeds puts the text into the file and clears the mark, one that fails changes
   * neither; nothing else touches the file.
   */
  predicate Written(a: View, key: int, ok: bool, b: View) {
    if !Writes(a, key) then b.disk == a.disk
    else
      && (if ok then Saves(a, b) else b.disk == a.disk && b.dirty == a.dirty)
      && b.running == !(ok && a.mode == COMMAND && IsWriteQuit(a.cmd))
  }

  /** One key handled while writes succeed or fail. */
  predicate Handled(a: View, key: int, ok: bool, b: View)
    requires SpotOk(a.here)
  {
    KeyStep(a, key, b) && Written(a, key, ok, b)
  }

  /** Enter on the command line q!, the one way to leave changes behind. */
  predicate Forces(a: View, key: int) { a.mode == COMMAND && key == KEY_ENTER && a.cmd == "q!" }

  /** One key handled by a running editor. */
  predicate KeyStep(a: View, key: int, b: View)
    requires SpotOk(a.here)
  {
    if IsUndo(a, key) then
      b == if a.undo.None? then a else a.(here := a.undo.value, undo := None, dirty := true)
    else
      && Flat(b.here.lines) == TextAfter(a, key)
      && Recorded(a, b)
      && Marked(a, b)
      && Leaves(a, key, b)
      && b.mode == ModeAfter(a, key)
      && b.pending == PendingAfter(a, key)
      && b.cmd == CmdAfter(a, key)
      && b.search == SearchAfter(a, key)
      && b.yank == YankAfter(a, key)
  }

  /** What every key keeps: the bounds of text and cursor, and a clean mark that can be trusted. */
  predicate Sane(v: View) {
    && SpotOk(v.here)
    && (v.undo.Some? ==> SpotOk(v.undo.value))
    && (v.yank.Some? ==> LineOk(v.yank.value))
    && |v.cmd| < 80 && |v.search| < 64
    && (!v.dirty ==> Synced(v.disk, v.here.lines))
  }

  // ---- whole runs ----

  /**
   * A run of the editor: the state before, between and after the keys, oks[i] being whether a write
   * during key i succeeds.
   */
  ghost predicate Run(vs: seq<View>, keys: seq<int>, oks: seq<bool>) {
    && |vs| == |keys| + 1 == |oks| + 1
    && (forall i :: 0 <= i < |vs| ==> Sane(vs[i]))
    && (forall i :: 0 <= i < |keys| ==> vs[i].running && Handled(vs[i], keys[i], oks[i], vs[i + 1]))
  }

  /** A normal-mode command and the insert session it may open: insert mode at every state strictly between. */
  ghost predicate Session(vs: seq<View>) {
    && |vs| >= 2 && vs[0].mode == NORMAL
    && (forall i :: 1 <= i < |vs| - 1 ==> vs[i].mode == INSERT)
  }

  /** Throughout an insert session the undo buffer keeps the state before the command that opened it. */
  lemma {:induction false} SessionRecorded(vs: seq<View>, keys: seq<int>, oks: seq<bool>, i: nat)
    requires Run(vs, keys, oks) && Session(vs) && !IsUndo(vs[0], keys[0])
    requires 1 <= i < |vs| && (i > 1 || vs[1].mode == INSERT || vs[1].here.lines != vs[0].here.lines)
    ensures vs[i].undo == Some(vs[0].here)
  {
    hide TextAfter, Marked, Leaves, CmdAfter, SearchAfter, YankAfter, ModeAfter;
    assert Handled(vs[i - 1], keys[i - 1], oks[i - 1], vs[i]);
    if i > 1 {
      assert vs[i - 1].mode == INSERT;
      SessionRecorded(vs, keys, oks, i - 1);
    }
  }

  /**
   * If a command and the insert session it opened changed the text, u right after brings text and
   * cursor back exactly.
   */
  lemma UndoRestores(vs: seq<View>, keys: seq<int>, oks: seq<bool>, after: View)
    requires Run(vs, keys, oks) && Session(vs) && !IsUndo(vs[0], keys[0])
    requires vs[|vs| - 1].mode == NORMAL && vs[|vs| - 1].pending == 0
    requires vs[|vs| - 1].here.lines != vs[0].here.lines
    requires KeyStep(vs[|vs| - 1], 'u' as int, after)
    ensures after.here == vs[0].here && after.undo.None?
  {
    SessionRecorded(vs, keys, oks, |vs| - 1);
  }

  lemma RunStep(vs: seq<View>, keys: seq<int>, oks: seq<bool>, i: nat)
    requires Run(vs, keys, oks) && i < |keys|
    ensures Sane(vs[i]) && SpotOk(vs[i].here) && vs[i].running && Sane(vs[i + 1])
    ensures Handled(vs[i], keys[i], oks[i], vs[i + 1])
  {
    hide Handled, SpotOk, Synced;
  }

  /** A run that has ended, other than by Enter on the command line q!, has left its text in the file. */
  lemma QuitSaved(vs: seq<View>, keys: seq<int>, oks: seq<bool>)
    requires Run(vs, keys, oks) && |keys| > 0
    requires !vs[|vs| - 1].running && !Forces(vs[|vs| - 2], keys[|keys| - 1])
    ensures Synced(vs[|vs| - 1].disk, vs[|vs| - 1].here.lines)
  {
    hide Handled, Sane, Synced;
    var n := |keys|;
    RunStep(vs, keys, oks, n - 1);
    LeavesSynced(vs[n - 1], keys[n - 1], oks[n - 1], vs[n]);
  }

  lemma LeavesSynced(a: View, key: int, ok: bool, b: View)
    requires Sane(a) && Sane(b) && SpotOk(a.here) && Handled(a, key, ok, b) && a.running && !b.running
    requires !Forces(a, key)
    ensures Synced(b.disk, b.here.lines)
  {
    hide TextAfter, YankAfter, SearchAfter, Loaded, TextOk;
  }
}
