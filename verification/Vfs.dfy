/**
 * Pathname resolution with symlink following (fs/vfs.c:189-299).
 *
 * Resolve is the algorithm on component lists; ResolvePath is the original's loop
 * over its work buffer, proved to compute it.  A candidate path that would not fit
 * the 256-byte buffers ends the model's run with Overrun.
 */
module Vfs {
  import opened Paths
  import opened Wrappers

  datatype Kind = File | Dir | Symlink

  datatype Stat = Stat(kind: Kind, mode: bv16, uid: nat, gid: nat)

  /** What a mounted driver says about a path: its stat, and its link text if it can read one. */
  datatype Node = Missing | Present(st: Stat, target: Option<string>)

  /** Everything the resolver can see: the mounted files and the caller's credentials. */
  datatype World = World(at: string -> Node, uid: nat, gid: nat)

  datatype Errno = ENOENT | EACCES | ELOOP | ENAMETOOLONG | Overrun

  datatype Outcome = Done(parts: Parts, follows: nat) | Fail(error: Errno)

  const MAX_FOLLOWS: nat := 40
  const MAX_NAME: nat := 64
  const MAX_PATH: nat := 256
  const WORK_SIZE: nat := 2048

  const X_OK: bv16 := 1

  /** vfs_access (fs/vfs.c:609-643) */
  predicate Access(st: Stat, uid: nat, gid: nat, requested: bv16) {
    if requested == 0 then true
    else if uid == 0 then requested & X_OK == 0 || st.mode & 0x49 != 0
    else
      var bits := if st.uid == uid then (st.mode >> 6) & 7 else if st.gid == gid then (st.mode >> 3) & 7
        else st.mode & 7;
      bits & (requested & 7) == requested & 7
  }

  /** Asking for two permissions at once is asking for each. */
  lemma AccessBoth(st: Stat, uid: nat, gid: nat, a: bv16, b: bv16)
    ensures Access(st, uid, gid, a | b) <==> Access(st, uid, gid, a) && Access(st, uid, gid, b)
  {
  }

  predicate Searchable(w: World, p: Parts) {
    var n := w.at(Render(p));
    n.Present? && Access(n.st, w.uid, w.gid, X_OK)
  }

  predicate IsLink(n: Node) { n.Present? && n.st.kind == Symlink }

  /** The readlink call has room for 255 bytes. */
  function LinkText(t: string): string { if |t| >= MAX_PATH then t[..MAX_PATH - 1] else t }

  /** The link's text goes in front of what is left. */
  function Spliced(target: string, rest: string): string {
    if rest == "" then target else target + "/" + rest
  }

  /** What remains to be resolved after splicing an absolute or a relative target. */
  function AfterLink(done: Parts, target: string, rest: string): (Parts, string) {
    if target != "" && target[0] == '/' then ([], Spliced(target, rest)[1..]) else (done, Spliced(target, rest))
  }

  /** Resolving text below the directory `done`, with `follows` links already followed. */
  function Resolve(w: World, done: Parts, text: string, follows: nat, final: bool): Outcome
    requires follows <= MAX_FOLLOWS
    decreases MAX_FOLLOWS - follows, |text|
  {
    if text == "" then Done(done, follows)
    else if Head(text) == "" then Resolve(w, done, Tail(text), follows, final)
    else if |Head(text)| >= MAX_NAME then Fail(ENAMETOOLONG)
    else if Head(text) == "." || Head(text) == ".."
      then Resolve(w, Append(done, Head(text)), Tail(text), follows, final)
    else ResolveName(w, done, Head(text), Tail(text), follows, final)
  }

  function ResolveName(w: World, done: Parts, c: string, rest: string, follows: nat, final: bool): Outcome
    requires follows <= MAX_FOLLOWS
    decreases MAX_FOLLOWS - follows, |rest| + 1, 0
  {
    var dir := w.at(Render(done));
    if dir.Missing? then Fail(ENOENT)
    else if !Access(dir.st, w.uid, w.gid, X_OK) then Fail(EACCES)
    else if |Render(done + [c])| >= MAX_PATH then Fail(Overrun)
    else
      var n := w.at(Render(done + [c]));
      if n.Missing? then if rest == "" then Done(done + [c], follows) else Fail(ENOENT)
      else if IsLink(n) && (rest != "" || final) then
        if follows == MAX_FOLLOWS then Fail(ELOOP)
        else if n.target.None? then Fail(ENOENT)
        else if |LinkText(n.target.value)| + |rest| + 2 > WORK_SIZE then Fail(ENAMETOOLONG)
        else
          var next := AfterLink(done, LinkText(n.target.value), rest);
          Resolve(w, next.0, next.1, follows + 1, final)
      else Resolve(w, done + [c], rest, follows, final)
  }

  // ---- what a resolved path is like ----

  /**
   * Canonical, within the buffer and name limits, and every proper prefix exists,
   * may be searched by the caller and (below the root) is not a symlink.
   */
  ghost predicate Good(w: World, p: Parts) {
    && CanonicalParts(p) && (p != [] ==> |Render(p)| < MAX_PATH)
    && forall k :: 0 <= k < |p| ==>
         |p[k]| < MAX_NAME && Searchable(w, p[..k]) && (k > 0 ==> !IsLink(w.at(Render(p[..k]))))
  }

  /** The path exists and is not a symlink. */
  ghost predicate Solid(w: World, p: Parts) {
    p != [] ==> w.at(Render(p)).Present? && !IsLink(w.at(Render(p)))
  }

  ghost predicate EndsWell(w: World, p: Parts, final: bool) {
    p != [] && final ==> !IsLink(w.at(Render(p)))
  }

  lemma GoodDown(w: World, done: Parts, c: string)
    requires Good(w, done) && Solid(w, done) && Searchable(w, done) && Proper(c) && |c| < MAX_NAME
             && |Render(done + [c])| < MAX_PATH
    ensures Good(w, done + [c])
  {
    hide Render, Access;
    var p := done + [c];
    forall k | 0 <= k < |p|
        ensures |p[k]| < MAX_NAME && Searchable(w, p[..k]) && (k > 0 ==> !IsLink(w.at(Render(p[..k])))) {
      if k < |done| {
        assert p[..k] == done[..k];
      } else {
        assert p[..k] == done;
      }
    }
  }

  lemma GoodUp(w: World, done: Parts)
    requires Good(w, done)
    ensures Good(w, Up(done)) && Solid(w, Up(done))
  {
    hide Access;
    if done != [] {
      var p := Up(done);
      forall k | 0 <= k < |p| ensures p[..k] == done[..k] {
      }
      assert done[..|p|] == p;
      assert Searchable(w, p);
      if p != [] {
        assert |Render(done)| > |Render(p)|;
      }
    }
  }

  lemma HeadIsComponent(t: string)
    requires Head(t) != ""
    ensures Component(Head(t)) && (Head(t) != "." && Head(t) != ".." ==> Proper(Head(t)))
  {
  }

  /** Every success is a good path; a followed final component is not a symlink; at most 40 links were followed. */
  lemma {:induction false} ResolveGood(w: World, done: Parts, text: string, follows: nat, final: bool)
    requires follows <= MAX_FOLLOWS && Good(w, done) && Solid(w, done)
    ensures var r := Resolve(w, done, text, follows, final);
            r.Done? ==> Good(w, r.parts) && EndsWell(w, r.parts, final) && follows <= r.follows <= MAX_FOLLOWS
    decreases MAX_FOLLOWS - follows, |text|
  {
    hide Good, Solid, EndsWell, Render;
    if text == "" {
      SolidEndsWell(w, done, final);
    } else if Head(text) == "" || Head(text) == "." {
      ResolveGood(w, done, Tail(text), follows, final);
    } else if Head(text) == ".." {
      GoodUp(w, done);
      ResolveGood(w, Up(done), Tail(text), follows, final);
    } else if |Head(text)| < MAX_NAME {
      HeadIsComponent(text);
      NameGood(w, done, Head(text), Tail(text), follows, final);
    }
  }

  lemma SolidEndsWell(w: World, p: Parts, final: bool)
    requires Solid(w, p)
    ensures EndsWell(w, p, final)
  {
  }

  lemma {:induction false} NameGood(w: World, done: Parts, c: string, rest: string, follows: nat, final: bool)
    requires follows <= MAX_FOLLOWS && Good(w, done) && Solid(w, done) && Proper(c) && |c| < MAX_NAME
    ensures var r := ResolveName(w, done, c, rest, follows, final);
            r.Done? ==> Good(w, r.parts) && EndsWell(w, r.parts, final) && follows <= r.follows <= MAX_FOLLOWS
    decreases MAX_FOLLOWS - follows, |rest| + 1, 0
  {
    hide Good, Render, AfterLink;
    if Searchable(w, done) && |Render(done + [c])| < MAX_PATH {
      GoodDown(w, done, c);
      var n := w.at(Render(done + [c]));
      if n.Present? {
        if !(IsLink(n) && (rest != "" || final)) {
          if !IsLink(n) {
            ResolveGood(w, done + [c], rest, follows, final);
          }
        } else if follows < MAX_FOLLOWS && n.target.Some? {
          var next := AfterLink(done, LinkText(n.target.value), rest);
          AfterLinkGood(w, done, LinkText(n.target.value), rest);
          ResolveGood(w, next.0, next.1, follows + 1, final);
        }
      }
    }
  }

  lemma AfterLinkGood(w: World, done: Parts, target: string, rest: string)
    requires Good(w, done) && Solid(w, done)
    ensures Good(w, AfterLink(done, target, rest).0) && Solid(w, AfterLink(done, target, rest).0)
  {
  }

  // ---- without links, resolution is normalization ----

  lemma {:induction false} ResolveNormal(w: World, done: Parts, text: string, follows: nat, final: bool)
    requires follows <= MAX_FOLLOWS
    ensures var r := Resolve(w, done, text, follows, final);
            && (r.Done? ==> r.follows >= follows)
            && (r.Done? && r.follows == follows ==> r.parts == Apply(done, Comps(text)))
    decreases MAX_FOLLOWS - follows, |text|
  {
    hide Render;
    if text != "" {
      if Head(text) == "" {
        ResolveNormal(w, done, Tail(text), follows, final);
      } else {
        ApplyStep(done, Head(text), Tail(text));
        CompsHead(text);
        if Head(text) == "." || Head(text) == ".." {
          ResolveNormal(w, Append(done, Head(text)), Tail(text), follows, final);
        } else if |Head(text)| < MAX_NAME {
          NameNormal(w, done, Head(text), Tail(text), follows, final);
        }
      }
    }
  }

  lemma CompsHead(t: string)
    requires t != "" && Head(t) != ""
    ensures Comps(t) == [Head(t)] + Comps(Tail(t))
  {
  }

  lemma ApplyStep(p: Parts, c: string, t: string)
    ensures Apply(p, [c] + Comps(t)) == Apply(Append(p, c), Comps(t))
  {
    assert ([c] + Comps(t))[1..] == Comps(t);
  }

  lemma {:induction false} NameNormal(w: World, done: Parts, c: string, rest: string, follows: nat, final: bool)
    requires follows <= MAX_FOLLOWS && c != "." && c != ".."
    ensures var r := ResolveName(w, done, c, rest, follows, final);
            && (r.Done? ==> r.follows >= follows)
            && (r.Done? && r.follows == follows ==> r.parts == Apply(done + [c], Comps(rest)))
    decreases MAX_FOLLOWS - follows, |rest| + 1, 0
  {
    hide Render, AfterLink, Comps;
    CompsNone();
    var n := w.at(Render(done + [c]));
    if n.Present? {
      if !(IsLink(n) && (rest != "" || final)) {
        ResolveNormal(w, done + [c], rest, follows, final);
      } else if follows < MAX_FOLLOWS && n.target.Some? {
        var next := AfterLink(done, LinkText(n.target.value), rest);
        ResolveNormal(w, next.0, next.1, follows + 1, final);
      }
    }
  }

  // ---- resolving again changes nothing ----

  /** The text of the components from k on, without the leading slash. */
  function TextFrom(p: Parts, k: nat): string
    requires k <= |p|
    decreases |p| - k
  {
    if k == |p| then "" else if k + 1 == |p| then p[k] else p[k] + "/" + TextFrom(p, k + 1)
  }

  lemma {:induction false} JoinText(p: Parts, k: nat)
    requires k < |p|
    ensures Join(p[k..]) == "/" + TextFrom(p, k)
    decreases |p| - k
  {
    hide Join;
    assert p[k..] == [p[k]] + p[k + 1..];
    JoinConcat([p[k]], p[k + 1..]);
    JoinOne(p[k]);
    if k + 1 < |p| {
      JoinText(p, k + 1);
      calc {
        Join(p[k..]);
        "/" + p[k] + Join(p[k + 1..]);
        "/" + p[k] + ("/" + TextFrom(p, k + 1));
        "/" + (p[k] + "/" + TextFrom(p, k + 1));
      }
    } else {
      assert p[k + 1..] == [];
    }
  }

  lemma JoinOne(c: string)
    ensures Join([c]) == "/" + c && Join([]) == ""
  {
    assert [c][..0] == [];
  }

  lemma TextSplits(p: Parts, k: nat)
    requires k < |p| && CanonicalParts(p)
    ensures TextFrom(p, k) != "" && Head(TextFrom(p, k)) == p[k] && Tail(TextFrom(p, k)) == TextFrom(p, k + 1)
    ensures k + 1 < |p| ==> TextFrom(p, k + 1) != ""
  {
    if k + 1 == |p| {
      HeadTail(p[k], "");
      assert p[k] + "" == p[k];
    } else {
      var t := "/" + TextFrom(p, k + 1);
      assert TextFrom(p, k) == p[k] + t;
      HeadTail(p[k], t);
      assert t[1..] == TextFrom(p, k + 1);
      assert p[k + 1] != "";
    }
  }

  /** One component of a good path. */
  lemma ReplayStep(w: World, p: Parts, k: nat, final: bool)
    requires k < |p| && Good(w, p) && EndsWell(w, p, final)
    ensures ResolveName(w, p[..k], p[k], TextFrom(p, k + 1), 0, final) ==
            if k + 1 == |p| then Done(p, 0) else Resolve(w, p[..k + 1], TextFrom(p, k + 1), 0, final)
  {
    hide Access, TextFrom, AfterLink, Render, Resolve;
    PrefixShort(p, k + 1);
    assert p[..k + 1] == p[..k] + [p[k]];
    assert Searchable(w, p[..k]);
    if k + 1 == |p| {
      TextEnd(p);
      assert p[..k + 1] == p;
      ResolveEnd(w, p, final);
    } else {
      TextSplits(p, k);
      assert Searchable(w, p[..k + 1]) && !IsLink(w.at(Render(p[..k + 1])));
    }
  }

  lemma ResolveEnd(w: World, p: Parts, final: bool)
    ensures Resolve(w, p, "", 0, final) == Done(p, 0)
  {
  }

  /** Walking a good path component by component arrives where it says, following nothing. */
  lemma {:induction false} Replay(w: World, p: Parts, k: nat, final: bool)
    requires k <= |p| && Good(w, p) && EndsWell(w, p, final)
    ensures Resolve(w, p[..k], TextFrom(p, k), 0, final) == Done(p, 0)
    decreases |p| - k
  {
    hide Head, Tail, TextFrom, ResolveName, Render, Searchable, IsLink;
    if k == |p| {
      assert p[..k] == p;
      TextEnd(p);
    } else {
      TextSplits(p, k);
      Replay(w, p, k + 1, final);
      ReplayStep(w, p, k, final);
    }
  }

  lemma TextEnd(p: Parts)
    ensures TextFrom(p, |p|) == ""
  {
  }

  lemma {:induction false} PrefixShort(p: Parts, k: nat)
    requires CanonicalParts(p) && 0 < k <= |p|
    ensures |Render(p[..k])| <= |Render(p)|
  {
    assert p == p[..k] + p[k..];
    JoinConcat(p[..k], p[k..]);
  }

  // ---- the whole call ----

  /** resolve_path as a function of the path. */
  function ResolveAll(w: World, path: string, final: bool): Outcome {
    if path == "" || path[0] != '/' then Fail(ENOENT)
    else if |path| - 1 >= WORK_SIZE then Fail(ENAMETOOLONG)
    else Resolve(w, [], path[1..], 0, final)
  }

  /**
   * What success means: a canonical path of at most 255 bytes whose proper
   * prefixes exist, are searchable and are not links; with `final`, not itself a
   * link; resolving it again gives the same path.
   */
  lemma ResolveMeans(w: World, path: string, final: bool)
    ensures var r := ResolveAll(w, path, final);
            r.Done? ==>
              && Good(w, r.parts) && EndsWell(w, r.parts, final) && r.follows <= MAX_FOLLOWS
              && ResolveAll(w, Render(r.parts), final) == Done(r.parts, 0)
  {
    hide Good, EndsWell, Resolve, Access;
    var r := ResolveAll(w, path, final);
    if r.Done? {
      RootGood(w);
      ResolveGood(w, [], path[1..], 0, final);
      Replay(w, r.parts, 0, final);
      assert r.parts[..0] == [];
      GoodShort(w, r.parts);
      if r.parts != [] {
        JoinText(r.parts, 0);
        assert r.parts[0..] == r.parts;
        assert Render(r.parts)[1..] == TextFrom(r.parts, 0);
      } else {
        TextEnd(r.parts);
        assert "/"[1..] == "";
      }
    }
  }

  lemma RootGood(w: World)
    ensures Good(w, []) && Solid(w, [])
  {
  }

  lemma GoodShort(w: World, p: Parts)
    requires Good(w, p)
    ensures |Render(p)| < MAX_PATH && Render(p)[0] == '/' && Render(p) != ""
  {
    JoinStarts(p);
  }

  /** If no link was followed, the result is what vfs_normalize computes. */
  lemma ResolveIsNormalize(w: World, path: string, final: bool, cwd: Parts)
    requires |path| <= MAX_PATH
    ensures var r := ResolveAll(w, path, final); r.Done? && r.follows == 0 ==> r.parts == Normal(cwd, path)
  {
    hide Resolve, Comps, Apply;
    if path != "" && path[0] == '/' {
      ResolveNormal(w, [], path[1..], 0, final);
    }
  }

  datatype Resolved = Path(path: string) | Error(error: Errno)

  function AsPath(r: Outcome): Resolved {
    match r
    case Done(p, _) => Path(Render(p))
    case Fail(e) => Error(e)
  }

  /** fs/vfs.c:273-289: the target in front of the rest, resolved from the root or from here. */
  method SpliceLink(resolved: string, work: string, cursor: nat, target: string, ghost parts: Parts)
    returns (resolved': string, work': string, ghost parts': Parts)
    requires resolved == Render(parts) && CanonicalParts(parts) && cursor <= |work|
    ensures resolved' == Render(parts') && CanonicalParts(parts')
    ensures (parts', work') == AfterLink(parts, target, work[cursor..])
  {
    hide Render, AfterLink;
    AfterLinkIs(parts, target, work[cursor..]);
    RootText();
    resolved' := resolved;
    work' := if cursor == |work| then target else target + "/" + work[cursor..];
    parts' := parts;
    if target != "" && target[0] == '/' {
      resolved' := "/";
      work' := work'[1..];
      parts' := [];
    }
  }

  /** resolve_path (fs/vfs.c:203-299): a cursor into a work buffer, and the path resolved so far. */
  method ResolvePath(w: World, path: string, final: bool) returns (out: Resolved)
    ensures out == AsPath(ResolveAll(w, path, final))
  {
    hide Access, Render, Append, AfterLink, Resolve, ResolveName;
    if path == "" || path[0] != '/' {
      return Error(ENOENT);
    }
    if |path| - 1 >= WORK_SIZE {
      return Error(ENAMETOOLONG);
    }
    ghost var goal := ResolveAll(w, path, final);
    var work := path[1..];
    var resolved := "/";
    ghost var parts: Parts := [];
    RootText();
    var follows := 0;
    var cursor := 0;
    assert work[0..] == work;
    while cursor < |work|
      invariant 0 <= cursor <= |work| && follows <= MAX_FOLLOWS
      invariant resolved == Render(parts) && CanonicalParts(parts)
      invariant goal == Resolve(w, parts, work[cursor..], follows, final)
      decreases MAX_FOLLOWS - follows, |work| - cursor
    {
      ghost var text := work[cursor..];
      var clen := SlashAt(work[cursor..]);
      var component := work[cursor..cursor + clen];
      var rest := if cursor + clen < |work| then cursor + clen + 1 else cursor + clen;
      assert component == Head(text) && work[rest..] == Tail(text);
      ResolveStep(w, parts, text, follows, final);
      cursor := rest;
      if clen == 0 {
        continue;
      }
      if clen >= MAX_NAME {
        return Error(ENAMETOOLONG);
      }
      HeadIsComponent(text);
      if component == "." {
        AppendDot(parts);
        continue;
      }
      if component == ".." {
        resolved := AppendComponent(resolved, component, parts);
        parts := Append(parts, component);
        continue;
      }
      NameStep(w, parts, component, work[cursor..], follows, final);
      var dir := w.at(resolved);
      if dir.Missing? {
        return Error(ENOENT);
      }
      if !Access(dir.st, w.uid, w.gid, X_OK) {
        return Error(EACCES);
      }
      var candidate := AppendComponent(resolved, component, parts);
      AppendName(parts, component);
      if |candidate| >= MAX_PATH {
        return Error(Overrun);
      }
      var node := w.at(candidate);
      var isLast := cursor == |work|;
      assert isLast <==> work[cursor..] == "";
      if node.Missing? {
        if isLast {
          return Path(candidate);
        }
        return Error(ENOENT);
      }
      if node.st.kind == Symlink && (!isLast || final) {
        if follows == MAX_FOLLOWS {
          return Error(ELOOP);
        }
        follows := follows + 1;
        if node.target.None? {
          return Error(ENOENT);
        }
        var target := LinkText(node.target.value);
        if |target| + 1 + |work| - cursor + 1 > WORK_SIZE {
          return Error(ENAMETOOLONG);
        }
        resolved, work, parts := SpliceLink(resolved, work, cursor, target, parts);
        cursor := 0;
        assert work[cursor..] == work;
        continue;
      }
      resolved, parts := candidate, parts + [component];
    }
    ResolveNothing(w, parts, follows, final);
    assert work[cursor..] == "";
    return Path(resolved);
  }

  lemma RootText()
    ensures Render([]) == "/"
  {
  }

  lemma AppendDot(p: Parts)
    ensures Append(p, ".") == p
  {
  }

  lemma AppendName(p: Parts, c: string)
    requires c != "." && c != ".."
    ensures Append(p, c) == p + [c]
  {
  }

  lemma AfterLinkIs(done: Parts, target: string, rest: string)
    ensures AfterLink(done, target, rest).0 == if target != "" && target[0] == '/' then [] else done
    ensures AfterLink(done, target, rest).1 ==
            var t := if rest == "" then target else target + "/" + rest;
              if target != "" && target[0] == '/' then t[1..] else t
  {
  }

  lemma ResolveNothing(w: World, done: Parts, follows: nat, final: bool)
    requires follows <= MAX_FOLLOWS
    ensures Resolve(w, done, "", follows, final) == Done(done, follows)
  {
  }

  lemma ResolveStep(w: World, done: Parts, text: string, follows: nat, final: bool)
    requires follows <= MAX_FOLLOWS && text != ""
    ensures var c, rest := Head(text), Tail(text);
            Resolve(w, done, text, follows, final) ==
            if c == "" then Resolve(w, done, rest, follows, final)
            else if |c| >= MAX_NAME then Fail(ENAMETOOLONG)
            else if c == "." || c == ".." then Resolve(w, Append(done, c), rest, follows, final)
            else ResolveName(w, done, c, rest, follows, final)
  {
    hide ResolveName, Append;
  }

  lemma NameStep(w: World, done: Parts, c: string, rest: string, follows: nat, final: bool)
    requires follows <= MAX_FOLLOWS
    ensures var dir, n := w.at(Render(done)), w.at(Render(done + [c]));
            var r := ResolveName(w, done, c, rest, follows, final);
            if dir.Missing? then r == Fail(ENOENT)
            else if !Access(dir.st, w.uid, w.gid, X_OK) then r == Fail(EACCES)
            else if |Render(done + [c])| >= MAX_PATH then r == Fail(Overrun)
            else if n.Missing? then r == if rest == "" then Done(done + [c], follows) else Fail(ENOENT)
            else if n.st.kind == Symlink && (rest != "" || final) then
              if follows == MAX_FOLLOWS then r == Fail(ELOOP)
              else if n.target.None? then r == Fail(ENOENT)
              else if |LinkText(n.target.value)| + |rest| + 2 > WORK_SIZE then r == Fail(ENAMETOOLONG)
              else var next := AfterLink(done, LinkText(n.target.value), rest);
                r == Resolve(w, next.0, next.1, follows + 1, final)
            else r == Resolve(w, done + [c], rest, follows, final)
  {
    hide Resolve, Access, AfterLink, Render;
  }
}
