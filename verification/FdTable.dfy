/**
 * The per-task descriptor table (arch/i386/syscall.c:46-157, 163-309): a file is
 * read into memory when it is opened and written back whole when it is closed.
 *
 * The filesystem below is a map from paths to contents; what it answers about
 * permissions, and whether its calls and kmalloc succeed, are parameters.
 */
module FdTable {
  import opened Bytes
  import opened Wrappers

  const MAX_OPEN_FILES: nat := 16
  const FIRST_FD: nat := 3

  datatype Errno = EBADF | EINVAL | ENOSPC | ENOENT | EMFILE | EISDIR | EACCES | OtherError(code: int)

  datatype Result<T> = Ok(value: T) | Error(error: Errno)

  /** fd_entry_t; data is None while the data pointer is NULL */
  datatype Fd = Fd(used: bool, writable: bool, data: Option<seq<byte>>, offset: nat, path: string)

  const CLOSED := Fd(false, false, None, 0, "")

  function Held(f: Fd): seq<byte> { if f.data.Some? then f.data.value else [] }

  // ---- the byte-sequence meaning of a descriptor ----

  /** s with b stored at offset off, the gap before it filled with zeros. */
  function Overlay(s: seq<byte>, off: nat, b: seq<byte>): seq<byte> {
    var grown := if off + |b| > |s| then s + Zeros(off + |b| - |s|) else s;
    Put(grown, off, b)
  }

  /** Byte by byte: the new bytes, else the old ones, else zeros. */
  lemma OverlayBytes(s: seq<byte>, off: nat, b: seq<byte>, k: nat)
    ensures |Overlay(s, off, b)| == if off + |b| > |s| then off + |b| else |s|
    ensures k < |Overlay(s, off, b)| ==>
              Overlay(s, off, b)[k] == if off <= k < off + |b| then b[k - off] else if k < |s| then s[k] else 0
  {
  }

  /** Two writes in a row are one write of both. */
  lemma WritesConcatenate(s: seq<byte>, off: nat, a: seq<byte>, b: seq<byte>)
    ensures Overlay(Overlay(s, off, a), off + |a|, b) == Overlay(s, off, a + b)
  {
    hide Overlay;
    var m := Overlay(s, off, a);
    var x, y := Overlay(m, off + |a|, b), Overlay(s, off, a + b);
    OverlayBytes(s, off, a, 0);
    OverlayBytes(m, off + |a|, b, 0);
    OverlayBytes(s, off, a + b, 0);
    forall k | 0 <= k < |y| ensures |x| == |y| && x[k] == y[k] {
      OverlayBytes(m, off + |a|, b, k);
      OverlayBytes(s, off, a, k);
      OverlayBytes(s, off, a + b, k);
    }
  }

  /** At most n bytes from an offset; nothing at or past the end. */
  function Slice(s: seq<byte>, off: nat, n: nat): seq<byte> {
    if off >= |s| then [] else if n < |s| - off then s[off..off + n] else s[off..]
  }

  /** Two reads in a row are one read of both lengths. */
  lemma ReadsConcatenate(s: seq<byte>, off: nat, n: nat, m: nat)
    ensures Slice(s, off, n) + Slice(s, off + |Slice(s, off, n)|, m) == Slice(s, off, n + m)
  {
  }

  /** Reading back what was just written. */
  lemma WriteThenRead(s: seq<byte>, off: nat, b: seq<byte>)
    ensures Slice(Overlay(s, off, b), off, |b|) == b
  {
    var w := Overlay(s, off, b);
    OverlayBytes(s, off, b, 0);
    if b != [] {
      PutSlice(if off + |b| > |s| then s + Zeros(off + |b| - |s|) else s, off, b);
    }
  }

  // ---- runs over the whole table ----

  /** The system calls that succeed, and what the filesystem answers: `made` and `failed` are its errors, if any. */
  datatype Op =
    | Write(fd: nat, bytes: seq<byte>)
    | Read(fd: nat, count: nat)
    | Seek(fd: nat, to: nat)
    | Open(path: string, write: bool, creat: bool, append: bool, allowed: bool, made: Option<int>)
    | Close(fd: nat, failed: Option<int>)

  /** The descriptors, the files and the directories below. */
  datatype State = State(fds: seq<Fd>, files: map<string, seq<byte>>, dirs: set<string>)

  /** What reading, writing or seeking does to the descriptor it names. */
  function Effect(f: Fd, op: Op): Fd {
    match op
    case Write(_, b) => if b == [] || !f.writable then f
      else f.(data := Some(Overlay(Held(f), f.offset, b)), offset := f.offset + |b|)
    case Read(_, n) => f.(offset := f.offset + |Slice(Held(f), f.offset, n)|)
    case Seek(_, to) => f.(offset := to)
    case _ => f
  }

  predicate InUse(fds: seq<Fd>, fd: int) { FIRST_FD <= fd < |fds| && fds[fd].used }

  /** The first descriptor from i on that is not in use, or their number. */
  function LowestFrom(fds: seq<Fd>, i: nat): (k: nat)
    ensures i <= |fds| ==> i <= k <= |fds| && (k < |fds| ==> !fds[k].used) && forall j :: i <= j < k ==> fds[j].used
    decreases |fds| - i
  {
    if i >= |fds| || !fds[i].used then i else LowestFrom(fds, i + 1)
  }

  predicate Missing(s: State, path: string) { path !in s.files && path !in s.dirs }

  /** The files once open has created what it may. */
  function Touched(s: State, op: Op): map<string, seq<byte>>
    requires op.Open?
  {
    if Missing(s, op.path) && op.write && op.creat && op.made.None? then s.files[op.path := []] else s.files
  }

  /** The descriptor of a freshly opened file. */
  function Opened(path: string, contents: seq<byte>, write: bool, append: bool): Fd {
    Fd(true, write, if !write || append then Some(contents) else None, if write && append then |contents| else 0, path)
  }

  function OpenStep(s: State, op: Op): State
    requires op.Open?
  {
    var k := LowestFrom(s.fds, FIRST_FD);
    if k >= |s.fds| then s
    else
      var files := Touched(s, op);
      if op.path in files && op.allowed
        then State(s.fds[k := Opened(op.path, files[op.path], op.write, op.append)], files, s.dirs)
      else s.(files := files)
  }

  /** Closing writes the whole file back. */
  function CloseStep(s: State, fd: nat, failed: Option<int>): State {
    if !InUse(s.fds, fd) then s
    else
      var f := s.fds[fd];
      State(s.fds[fd := CLOSED], if f.writable && failed.None? then s.files[f.path := Held(f)] else s.files, s.dirs)
  }

  function Step(s: State, op: Op): State {
    match op
    case Open(_, _, _, _, _, _) => OpenStep(s, op)
    case Close(fd, failed) => CloseStep(s, fd, failed)
    case _ => if InUse(s.fds, op.fd) then s.(fds := s.fds[op.fd := Effect(s.fds[op.fd], op)]) else s
  }

  function Run(s: State, ops: seq<Op>): State
    decreases |ops|
  {
    if ops == [] then s else Run(Step(s, ops[0]), ops[1..])
  }

  function RunOne(f: Fd, ops: seq<Op>): Fd
    decreases |ops|
  {
    if ops == [] then f else RunOne(Effect(f, ops[0]), ops[1..])
  }

  predicate Edits(op: Op, k: nat) { (op.Write? || op.Read? || op.Seek?) && op.fd == k }

  /** The reads, writes and seeks on descriptor k, in order. */
  function Mine(ops: seq<Op>, k: nat): seq<Op>
    decreases |ops|
  {
    if ops == [] then [] else (if Edits(ops[0], k) then [ops[0]] else []) + Mine(ops[1..], k)
  }

  predicate KeepsOpen(ops: seq<Op>, k: nat) {
    forall m :: 0 <= m < |ops| ==> !(ops[m].Close? && ops[m].fd == k)
  }

  /** A step that does not close descriptor k changes it by reading, writing and seeking through it only. */
  lemma StepOn(s: State, op: Op, k: nat)
    requires InUse(s.fds, k) && !(op.Close? && op.fd == k)
    ensures |Step(s, op).fds| == |s.fds| && InUse(Step(s, op).fds, k) && Step(s, op).fds[k] == if Edits(op, k)
            then Effect(s.fds[k], op) else s.fds[k]
  {
    hide Overlay, Slice;
  }

  /**
   * In every interleaving, opens and closes of other descriptors included, an open descriptor
   * behaves as if it were alone.
   */
  lemma {:induction false} DescriptorsIndependent(s: State, ops: seq<Op>, k: nat)
    requires InUse(s.fds, k) && KeepsOpen(ops, k)
    ensures InUse(Run(s, ops).fds, k) && Run(s, ops).fds[k] == RunOne(s.fds[k], Mine(ops, k))
    decreases |ops|
  {
    hide Step, Effect, InUse;
    if ops != [] {
      StepOn(s, ops[0], k);
      DescriptorsIndependent(Step(s, ops[0]), ops[1..], k);
      if Edits(ops[0], k) {
        assert Mine(ops, k)[1..] == Mine(ops[1..], k);
      } else {
        assert Mine(ops, k) == Mine(ops[1..], k);
      }
    }
  }

  class Table {
    var fds: seq<Fd>
    var files: map<string, seq<byte>>
    var dirs: set<string>

    ghost predicate Valid()
      reads this
    {
      |fds| == MAX_OPEN_FILES && files.Keys !! dirs && forall i :: FIRST_FD <= i < MAX_OPEN_FILES && fds[i].used ==>
          fds[i].path !in dirs
    }

    ghost function Now(): State
      reads this
    {
      State(fds, files, dirs)
    }

    /** A new task's table: descriptors 0 to 2 are reserved (kernel/task.c:22-28). */
    constructor (files_: map<string, seq<byte>>, dirs_: set<string>)
      requires files_.Keys !! dirs_
      ensures Valid() && files == files_ && dirs == dirs_
      ensures forall i :: 0 <= i < MAX_OPEN_FILES ==> fds[i] == CLOSED.(used := i < FIRST_FD)
    {
      fds := seq(MAX_OPEN_FILES, i => CLOSED.(used := i < FIRST_FD));
      files, dirs := files_, dirs_;
    }

    /** SYS_WRITE on a file descriptor (arch/i386/syscall.c:58-96) */
    method WriteFd(fd: int, buf: Option<seq<byte>>, memory: bool) returns (r: Result<nat>)
      requires Valid()
      modifies this`fds
      ensures Valid()
      ensures r == if !(FIRST_FD <= fd < MAX_OPEN_FILES && old(fds)[fd].used && old(fds)[fd].writable) then Error(EBADF)
                   else if buf.None? then Error(EINVAL)
                   else if old(fds)[fd].offset + |buf.value| > |Held(old(fds)[fd])| && buf.value != [] && !memory
                     then Error(ENOSPC)
                   else Ok(|buf.value|)
      ensures Now() == if r.Ok? then Step(old(Now()), Write(fd, buf.value)) else old(Now())
    {
      if fd < FIRST_FD || fd >= MAX_OPEN_FILES {
        return Error(EBADF);
      }
      var f := fds[fd];
      if !f.used || !f.writable {
        return Error(EBADF);
      }
      if buf.None? {
        return Error(EINVAL);
      }
      var b := buf.value;
      if |b| == 0 {
        assert fds[fd := f] == fds;
        return Ok(0);
      }
      var end := f.offset + |b|;
      if end > |Held(f)| {
        if !memory {
          return Error(ENOSPC);
        }
        var grown := Zeros(end);
        if f.data.Some? {
          grown := Put(grown, 0, f.data.value);
        }
        GrownIs(Held(f), end, f.data.Some?);
        f := f.(data := Some(grown));
      }
      f := f.(data := Some(Put(f.data.value, f.offset, b)));
      f := f.(offset := f.offset + |b|);
      fds := fds[fd := f];
      return Ok(|b|);
    }

    /** SYS_READ on a file descriptor (arch/i386/syscall.c:121-157) */
    method ReadFd(fd: int, buffer: bool, count: nat) returns (r: Result<seq<byte>>)
      requires Valid()
      modifies this`fds
      ensures Valid()
      ensures r == if !(FIRST_FD <= fd < MAX_OPEN_FILES && old(fds)[fd].used && old(fds)[fd].data.Some?)
              then Error(EBADF)
                   else if !buffer then Error(EINVAL)
                   else Ok(Slice(Held(old(fds)[fd]), old(fds)[fd].offset, count))
      ensures Now() == if r.Ok? then Step(old(Now()), Read(fd, count)) else old(Now())
    {
      if fd < FIRST_FD || fd >= MAX_OPEN_FILES {
        return Error(EBADF);
      }
      var f := fds[fd];
      if !f.used || f.data.None? {
        return Error(EBADF);
      }
      if !buffer {
        return Error(EINVAL);
      }
      if count == 0 || f.offset >= |f.data.value| {
        assert Slice(f.data.value, f.offset, count) == [];
        assert fds[fd := f] == fds;
        return Ok([]);
      }
      var available := |f.data.value| - f.offset;
      var chunk := if count < available then count else available;
      assert f.data.value[f.offset..f.offset + available] == f.data.value[f.offset..];
      r := Ok(f.data.value[f.offset..f.offset + chunk]);
      fds := fds[fd := f.(offset := f.offset + chunk)];
    }

    /** SYS_LSEEK (arch/i386/syscall.c:282-309); whence 0, 1, 2 are SEEK_SET, SEEK_CUR, SEEK_END */
    method SeekFd(fd: int, offset: int, whence: int) returns (r: Result<nat>)
      requires Valid()
      modifies this`fds
      ensures Valid()
      ensures FIRST_FD <= fd < MAX_OPEN_FILES && old(fds)[fd].used ==>
                var f := old(fds)[fd];
                var to := offset + if whence == 0 then 0 else if whence == 1 then f.offset else |Held(f)|;
                r == if 0 <= whence <= 2 && to >= 0 then Ok(to) else Error(EINVAL)
      ensures !(FIRST_FD <= fd < MAX_OPEN_FILES && old(fds)[fd].used) ==> r == Error(EBADF)
      ensures Now() == if r.Ok? then Step(old(Now()), Seek(fd, r.value)) else old(Now())
    {
      if fd < FIRST_FD || fd >= MAX_OPEN_FILES || !fds[fd].used {
        return Error(EBADF);
      }
      var to: int;
      if whence == 0 {
        to := offset;
      } else if whence == 1 {
        to := fds[fd].offset + offset;
      } else if whence == 2 {
        to := |Held(fds[fd])| + offset;
      } else {
        return Error(EINVAL);
      }
      if to < 0 {
        return Error(EINVAL);
      }
      fds := fds[fd := fds[fd].(offset := to)];
      return Ok(to);
    }

    /** The slot search of SYS_OPEN (arch/i386/syscall.c:178-188) */
    method LowestFree() returns (fd: nat)
      requires Valid()
      ensures fd == LowestFrom(fds, FIRST_FD)
    {
      fd := FIRST_FD;
      while fd < MAX_OPEN_FILES
        invariant FIRST_FD <= fd <= MAX_OPEN_FILES && LowestFrom(fds, FIRST_FD) == LowestFrom(fds, fd)
      {
        if !fds[fd].used {
          return;
        }
        fd := fd + 1;
      }
    }

    /** SYS_OPEN (arch/i386/syscall.c:163-265); `allowed` is the answer of vfs_access, `made` the error of vfs_create */
    method OpenFd(path: string, write: bool, creat: bool, append: bool, allowed: bool, made: Option<int>)
      returns (r: Result<nat>)
      requires Valid()
      modifies this
      ensures Valid() && Now() == Step(old(Now()), Open(path, write, creat, append, allowed, made))
      ensures var full := forall i :: FIRST_FD <= i < MAX_OPEN_FILES ==> old(fds)[i].used;
              var gone := Missing(old(Now()), path) && !(write && creat);
              var stuck := Missing(old(Now()), path) && write && creat && made.Some?;
              && (r == Error(EMFILE) <==> full)
              && (r == Error(ENOENT) <==> !full && gone)
              && (r.Error? && r.error.OtherError? <==> !full && stuck)
              && (r.Error? && r.error.OtherError? ==> r.error.code == made.value)
              && (r == Error(EISDIR) <==> !full && path in dirs)
              && (r == Error(EACCES) <==> !full && !gone && !stuck && path !in dirs && !allowed)
              && (r.Ok? <==> !full && !gone && !stuck && path !in dirs && allowed)
      ensures r.Ok? ==> FIRST_FD <= r.value < MAX_OPEN_FILES && !old(fds)[r.value].used && forall i ::
                FIRST_FD <= i < r.value ==> old(fds)[i].used
      ensures r.Ok? ==> path in files && fds[r.value] == Opened(path, files[path], write, append)
    {
      var fd := LowestFree();
      if fd >= MAX_OPEN_FILES {
        return Error(EMFILE);
      }
      if path !in files && path !in dirs {
        if !write || !creat {
          return Error(ENOENT);
        }
        if made.Some? {
          return Error(OtherError(made.value));
        }
        files := files[path := []];
      }
      if path !in files {
        return Error(EISDIR);
      }
      if !allowed {
        return Error(EACCES);
      }
      var data := if !write || append then Some(files[path]) else None;
      var f := Fd(true, write, data, if write && append then |files[path]| else 0, path);
      fds := fds[fd := f];
      return Ok(fd);
    }

    /** SYS_CLOSE (arch/i386/syscall.c:266-281); `failed` is the error of vfs_write_file, if any */
    method CloseFd(fd: int, failed: Option<int>) returns (r: Result<nat>)
      requires Valid()
      modifies this`fds, this`files
      ensures Valid() && (fd >= 0 ==> Now() == Step(old(Now()), Close(fd, failed)))
      ensures r == Error(EBADF) <==> !InUse(old(fds), fd)
      ensures r == Error(EBADF) ==> Now() == old(Now())
      ensures InUse(old(fds), fd) ==>
                r == if old(fds)[fd].writable && failed.Some? then Error(OtherError(failed.value)) else Ok(0)
    {
      if fd < FIRST_FD || fd >= MAX_OPEN_FILES || !fds[fd].used {
        return Error(EBADF);
      }
      var f := fds[fd];
      r := Ok(0);
      if f.writable {
        if failed.Some? {
          r := Error(OtherError(failed.value));
        } else {
          files := files[f.path := Held(f)];
        }
      }
      fds := fds[fd := CLOSED];
    }
  }

  lemma GrownIs(s: seq<byte>, end: nat, some: bool)
    requires |s| <= end && (!some ==> s == [])
    ensures (if some then Put(Zeros(end), 0, s) else Zeros(end)) == s + Zeros(end - |s|)
  {
  }

  // ---- a whole session ----

  /** The byte sequence and position a plain file would reach. */
  function Edited(s: seq<byte>, off: nat, ops: seq<Op>): seq<byte>
    decreases |ops|
  {
    if ops == [] then s
    else
      match ops[0]
      case Write(_, b) => Edited(if b == [] then s else Overlay(s, off, b), off + |b|, ops[1..])
      case Read(_, n) => Edited(s, off + |Slice(s, off, n)|, ops[1..])
      case Seek(_, to) => Edited(s, to, ops[1..])
      case _ => Edited(s, off, ops[1..])
  }

  lemma {:induction false} OneSession(f: Fd, ops: seq<Op>)
    requires f.writable
    ensures Held(RunOne(f, ops)) == Edited(Held(f), f.offset, ops)
    ensures RunOne(f, ops).writable && RunOne(f, ops).path == f.path
    decreases |ops|
  {
    hide Overlay, Slice;
    if ops != [] {
      OneSession(Effect(f, ops[0]), ops[1..]);
    }
  }

  /** The open gets descriptor k for writing. */
  predicate OpensFor(s: State, op: Op, k: nat) {
    && op.Open? && op.write && op.allowed && op.path in Touched(s, op)
    && k == LowestFrom(s.fds, FIRST_FD) < |s.fds|
  }

  /** What a writer starts from: the file to append to, or nothing. */
  function Base(s: State, op: Op): seq<byte>
    requires op.Open? && op.path in Touched(s, op)
  {
    if op.append then Touched(s, op)[op.path] else []
  }

  /** Open, any run that leaves the descriptor open, close. */
  function Session(open: Op, ops: seq<Op>, k: nat): seq<Op> {
    [open] + ops + [Close(k, None)]
  }

  /**
   * Closing commits exactly the edits made through the descriptor since it was opened, whatever
   * was opened, written and closed meanwhile, on the same path too: the later close decides.
   */
  lemma SessionCommits(s: State, open: Op, ops: seq<Op>, k: nat)
    requires OpensFor(s, open, k) && KeepsOpen(ops, k)
    ensures var r := Run(s, Session(open, ops, k));
            open.path in r.files && r.files[open.path] == Edited(Base(s, open), |Base(s, open)|, Mine(ops, k))
  {
    hide Overlay, Slice, Mine, RunOne, Edited, Effect;
    var s1 := Step(s, open);
    assert s1.fds[k] == Opened(open.path, Touched(s, open)[open.path], true, open.append);
    assert InUse(s1.fds, k) && Held(s1.fds[k]) == Base(s, open) && s1.fds[k].offset == |Base(s, open)|;
    DescriptorsIndependent(s1, ops, k);
    OneSession(s1.fds[k], Mine(ops, k));
    RunSession(s, open, ops, k);
  }

  lemma RunSession(s: State, open: Op, ops: seq<Op>, k: nat)
    ensures Run(s, Session(open, ops, k)) == CloseStep(Run(Step(s, open), ops), k, None)
  {
    hide Step, CloseStep;
    var all := Session(open, ops, k);
    assert all[0] == open && all[1..] == ops + [Close(k, None)];
    RunSplit(Step(s, open), ops, [Close(k, None)]);
    var z := Run(Step(s, open), ops);
    assert Run(z, [Close(k, None)]) == Run(Step(z, Close(k, None)), []);
    CloseIs(z, k);
  }

  lemma CloseIs(s: State, k: nat)
    ensures Step(s, Close(k, None)) == CloseStep(s, k, None)
  {
    hide CloseStep;
  }

  lemma {:induction false} RunSplit(s: State, a: seq<Op>, b: seq<Op>)
    ensures Run(s, a + b) == Run(Run(s, a), b)
    decreases |a|
  {
    hide Step;
    if a == [] {
      assert a + b == b;
    } else {
      assert (a + b)[0] == a[0] && (a + b)[1..] == a[1..] + b;
      RunSplit(Step(s, a[0]), a[1..], b);
    }
  }

  /** The step closes a writer of the path. */
  predicate Commits(s: State, op: Op, path: string) {
    op.Close? && InUse(s.fds, op.fd) && s.fds[op.fd].writable && s.fds[op.fd].path == path && op.failed.None?
  }

  /** No step of the run closes a writer of the path. */
  predicate Quiet(s: State, ops: seq<Op>, path: string)
    decreases |ops|
  {
    ops != [] ==> !Commits(s, ops[0], path) && Quiet(Step(s, ops[0]), ops[1..], path)
  }

  /** Only such a close changes a file that is there. */
  lemma {:induction false} FileStays(s: State, ops: seq<Op>, path: string)
    requires path in s.files && Quiet(s, ops, path)
    ensures path in Run(s, ops).files && Run(s, ops).files[path] == s.files[path]
    decreases |ops|
  {
    if ops != [] {
      StepFile(s, ops[0], path);
      hide Step, Commits;
      FileStays(Step(s, ops[0]), ops[1..], path);
    }
  }

  lemma StepFile(s: State, op: Op, path: string)
    requires path in s.files && !Commits(s, op, path)
    ensures path in Step(s, op).files && Step(s, op).files[path] == s.files[path]
  {
    hide Effect, Opened, Held;
  }

  /** After any run the file holds what the last writer of the path to be closed made of it. */
  lemma LastCloseDecides(s: State, open: Op, ops: seq<Op>, k: nat, rest: seq<Op>)
    requires OpensFor(s, open, k) && KeepsOpen(ops, k) && Quiet(Run(s, Session(open, ops, k)), rest, open.path)
    ensures var r := Run(s, Session(open, ops, k) + rest);
            open.path in r.files && r.files[open.path] == Edited(Base(s, open), |Base(s, open)|, Mine(ops, k))
  {
    hide Run, Session, Edited, Mine, Base, Quiet;
    SessionCommits(s, open, ops, k);
    RunSplit(s, Session(open, ops, k), rest);
    FileStays(Run(s, Session(open, ops, k)), rest, open.path);
  }
}
