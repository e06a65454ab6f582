/**
 * Path strings and the component lists they spell (fs/vfs.c:174-185, 677-715).
 */
module Paths {

  type Parts = seq<string>

  predicate Component(c: string) { c != "" && '/' !in c }

  predicate Proper(c: string) { Component(c) && c != "." && c != ".." }

  predicate CanonicalParts(p: Parts) {
    forall k :: 0 <= k < |p| ==> Proper(p[k])
  }

  /** Every component with a slash in front. */
  function Join(p: Parts): string {
    if p == [] then "" else Join(p[..|p| - 1]) + "/" + p[|p| - 1]
  }

  /** The absolute path of a component list. */
  function Render(p: Parts): string {
    if p == [] then "/" else Join(p)
  }

  // ---- splitting text ----

  /** The index of the first slash, or the length (strchr). */
  function SlashAt(t: string): (k: nat)
    ensures k <= |t| && (k < |t| ==> t[k] == '/') && '/' !in t[..k]
  {
    if t == "" || t[0] == '/' then 0
    else
      var k := SlashAt(t[1..]);
      assert t[..k + 1] == [t[0]] + t[1..][..k];
      k + 1
  }

  function Head(t: string): string { t[..SlashAt(t)] }

  function Tail(t: string): (r: string)
    ensures t != "" ==> |r| < |t|
  {
    if SlashAt(t) < |t| then t[SlashAt(t) + 1..] else ""
  }

  /** The non-empty components of a text. */
  function Comps(t: string): (p: Parts)
    ensures forall k :: 0 <= k < |p| ==> Component(p[k])
    decreases |t|
  {
    if t == "" then []
    else if Head(t) == "" then Comps(Tail(t))
    else [Head(t)] + Comps(Tail(t))
  }

  lemma SlashAtUnique(t: string, k: nat)
    requires k <= |t| && (k < |t| ==> t[k] == '/') && '/' !in t[..k]
    ensures SlashAt(t) == k
  {
  }

  /** Text split at a slash. */
  lemma HeadTail(c: string, t: string)
    requires '/' !in c
    ensures t == "" ==> Head(c + t) == c && Tail(c + t) == ""
    ensures t != "" && t[0] == '/' ==> Head(c + t) == c && Tail(c + t) == t[1..]
  {
    if t == "" || t[0] == '/' {
      assert (c + t)[..|c|] == c;
      SlashAtUnique(c + t, |c|);
    }
  }

  lemma SkipSlash(t: string)
    requires t != "" && t[0] == '/'
    ensures Comps(t) == Comps(t[1..])
  {
    assert SlashAt(t) == 0;
  }

  /** The first component comes off the front. */
  lemma CompsStep(c: string, t: string)
    requires '/' !in c && (t == "" || t[0] == '/')
    ensures Comps(c + t) == (if c == "" then [] else [c]) + Comps(t)
  {
    hide SlashAt, Head, Tail;
    HeadTail(c, t);
    if c == "" {
      assert c + t == t;
    } else if t != "" {
      SkipSlash(t);
    }
  }

  /** Splitting commutes with joining at a slash. */
  lemma {:induction false} CompsConcat(a: string, t: string)
    requires t == "" || t[0] == '/'
    ensures Comps(a + t) == Comps(a) + Comps(t)
    decreases |a|
  {
    hide Comps;
    var k := SlashAt(a);
    var c, b := a[..k], a[k..];
    assert a == c + b;
    if b == "" {
      assert a == c && c + "" == c;
      CompsStep(c, t);
      CompsStep(c, "");
      CompsNone();
    } else {
      assert a + t == c + (b + t);
      CompsStep(c, b + t);
      CompsStep(c, b);
      SkipSlash(b + t);
      SkipSlash(b);
      assert (b + t)[1..] == b[1..] + t;
      CompsConcat(b[1..], t);
    }
  }

  lemma CompsNone()
    ensures Comps("") == []
  {
  }

  lemma CompsOne(c: string)
    requires Component(c)
    ensures Comps("/" + c) == [c] && Comps(c) == [c]
  {
    hide Comps;
    CompsNone();
    CompsStep(c, "");
    assert c + "" == c;
    SkipSlash("/" + c);
    assert ("/" + c)[1..] == c;
  }

  /** A rendered path splits back into its components. */
  lemma {:induction false} CompsJoin(p: Parts)
    requires forall k :: 0 <= k < |p| ==> Component(p[k])
    ensures Comps(Join(p)) == p && Comps(Render(p)) == p
  {
    hide Comps;
    if p != [] {
      var init, c := p[..|p| - 1], p[|p| - 1];
      CompsJoin(init);
      assert Join(p) == Join(init) + ("/" + c);
      CompsConcat(Join(init), "/" + c);
      CompsOne(c);
      assert p == init + [c];
    } else {
      CompsRoot();
    }
  }

  lemma CompsRoot()
    ensures Comps("") == [] && Comps("/") == []
  {
    SkipSlash("/");
    assert "/"[1..] == "";
  }

  lemma {:induction false} JoinConcat(p: Parts, q: Parts)
    ensures Join(p + q) == Join(p) + Join(q)
  {
    if q == [] {
      assert p + q == p;
    } else {
      var init, c := q[..|q| - 1], q[|q| - 1];
      assert (p + q)[..|p + q| - 1] == p + init;
      JoinConcat(p, init);
    }
  }

  /** Two component lists with the same text are the same. */
  lemma RenderInjective(p: Parts, q: Parts)
    requires CanonicalParts(p) && CanonicalParts(q) && Render(p) == Render(q)
    ensures p == q
  {
    CompsJoin(p);
    CompsJoin(q);
  }

  // ---- one component at a time ----

  function Up(p: Parts): Parts { if p == [] then [] else p[..|p| - 1] }

  /** What resolved_append and append_component do, on component lists. */
  function Append(p: Parts, c: string): Parts {
    if c == "." then p else if c == ".." then Up(p) else p + [c]
  }

  function Apply(p: Parts, cs: Parts): Parts
    decreases |cs|
  {
    if cs == [] then p else Apply(Append(p, cs[0]), cs[1..])
  }

  lemma {:induction false} ApplyCanonical(p: Parts, cs: Parts)
    requires CanonicalParts(p) && forall k :: 0 <= k < |cs| ==> Component(cs[k])
    ensures CanonicalParts(Apply(p, cs))
    decreases |cs|
  {
    if cs != [] {
      ApplyCanonical(Append(p, cs[0]), cs[1..]);
    }
  }

  /** Applying a canonical list just appends it. */
  lemma {:induction false} ApplyProper(p: Parts, cs: Parts)
    requires CanonicalParts(cs)
    ensures Apply(p, cs) == p + cs
    decreases |cs|
  {
    if cs != [] {
      ApplyProper(p + [cs[0]], cs[1..]);
      assert p + [cs[0]] + cs[1..] == p + cs;
    } else {
      assert p + cs == p;
    }
  }

  /** strrchr(s, '/') */
  method LastSlash(s: string) returns (k: int)
    ensures -1 <= k < |s| && (k >= 0 ==> s[k] == '/') && '/' !in s[k + 1..]
  {
    k := |s| - 1;
    while k >= 0 && s[k] != '/'
      invariant -1 <= k < |s| && '/' !in s[k + 1..]
    {
      assert s[k..] == [s[k]] + s[k + 1..];
      k := k - 1;
    }
  }

  lemma LastSlashAt(s: string, a: string, c: string, k: int)
    requires s == a + "/" + c && '/' !in c && 0 <= k < |s| && s[k] == '/' && '/' !in s[k + 1..]
    ensures k == |a|
  {
    assert s[|a|] == '/';
  }

  /** Cutting at the last slash takes one component off, the root staying. */
  lemma CutLast(p: Parts, slash: int)
    requires CanonicalParts(p) && -1 <= slash < |Render(p)| && (slash >= 0 ==> Render(p)[slash] == '/')
    requires '/' !in Render(p)[slash + 1..]
    ensures Render(Up(p)) == if slash > 0 then Render(p)[..slash] else "/"
  {
    if p == [] {
      assert Render(p)[0] == '/';
    } else {
      var a, c := Join(p[..|p| - 1]), p[|p| - 1];
      assert Render(p)[|a|] == '/';
      LastSlashAt(Render(p), a, c, slash);
      RenderInit(p);
    }
  }

  lemma AddLast(p: Parts, c: string)
    requires CanonicalParts(p)
    ensures Render(p + [c]) == (if Render(p) == "/" then "/" else Render(p) + "/") + c
  {
    JoinStarts(p);
    assert (p + [c])[..|p|] == p;
    assert Render(p + [c]) == Join(p) + "/" + c;
    if p == [] {
      assert Join(p) + "/" + c == "/" + c;
    }
  }

  lemma AppendCanonical(p: Parts, c: string)
    requires CanonicalParts(p) && Component(c)
    ensures CanonicalParts(Append(p, c))
  {
  }

  /** resolved_append and append_component (fs/vfs.c:174-185, 677-688), the component not empty */
  method AppendComponent(path: string, c: string, ghost p: Parts) returns (r: string)
    requires path == Render(p) && CanonicalParts(p) && Component(c)
    ensures r == Render(Append(p, c)) && CanonicalParts(Append(p, c))
  {
    hide Render, CanonicalParts, Join;
    AppendCanonical(p, c);
    if c == "." {
      return path;
    }
    if c == ".." {
      var slash := LastSlash(path);
      CutLast(p, slash);
      if slash > 0 {
        return path[..slash];
      }
      return "/";
    }
    AddLast(p, c);
    r := path;
    if r != "/" {
      r := r + "/";
    }
    r := r + c;
  }

  /** Only the empty list renders as "/". */
  lemma JoinStarts(p: Parts)
    requires CanonicalParts(p)
    ensures p != [] ==> |Join(p)| >= 2 && Join(p)[0] == '/'
  {
    if |p| > 1 {
      JoinStarts(p[..|p| - 1]);
    }
  }

  lemma RenderInit(p: Parts)
    requires CanonicalParts(p)
    ensures p != [] ==> |Join(p[..|p| - 1])| > 0 ==> Render(Up(p)) == Join(p[..|p| - 1])
    ensures p != [] ==> |Join(p[..|p| - 1])| == 0 ==> Render(Up(p)) == "/"
    ensures p != [] ==> Join(p)[..|Join(p[..|p| - 1])|] == Join(p[..|p| - 1])
  {
    if p != [] {
      JoinStarts(p[..|p| - 1]);
    }
  }

  /**
   * vfs_normalize (fs/vfs.c:690-715): the components of the path, the first 255
   * bytes of it, applied to the root or to the current directory.
   */
  method Normalize(cwd: string, ghost base: Parts, path: string) returns (out: string)
    requires cwd == Render(base) && CanonicalParts(base)
    ensures out == Render(Normal(base, path)) && CanonicalParts(Normal(base, path))
  {
    if path == "" {
      NormalEmpty(base);
      return cwd;
    }
    ghost var p;
    var tmp;
    if path[0] == '/' {
      out, p, tmp := "/", [], path[1..];
    } else {
      out, p, tmp := cwd, base, path;
    }
    tmp := Truncated(tmp);
    ghost var goal := Normal(base, path);
    var i := 0;
    assert tmp[0..] == tmp;
    while i < |tmp|
      invariant 0 <= i <= |tmp| && out == Render(p) && CanonicalParts(p)
      invariant goal == Apply(p, Comps(tmp[i..]))
    {
      hide Comps, Apply, Render, CanonicalParts, Append;
      var k := SlashAt(tmp[i..]);
      NextComponent(p, tmp, i, k);
      if k > 0 {
        out := AppendComponent(out, tmp[i..][..k], p);
        p := Append(p, tmp[i..][..k]);
      }
      i := if i + k < |tmp| then i + k + 1 else |tmp|;
    }
    LastComponent(p, tmp);
  }

  /** One round of the loop: the component before the next slash is applied. */
  lemma NextComponent(p: Parts, tmp: string, i: nat, k: nat)
    requires i < |tmp| && k == SlashAt(tmp[i..])
    ensures k > 0 ==> Component(tmp[i..][..k])
    ensures var rest := tmp[if i + k < |tmp| then i + k + 1 else |tmp|..];
            Apply(p, Comps(tmp[i..])) == Apply(if k > 0 then Append(p, tmp[i..][..k]) else p, Comps(rest))
  {
    hide Append;
    var text := tmp[i..];
    assert Tail(text) == tmp[if i + k < |tmp| then i + k + 1 else |tmp|..];
    ApplyFirst(p, Head(text), Comps(Tail(text)));
  }

  lemma ApplyFirst(p: Parts, c: string, cs: Parts)
    ensures Apply(p, [c] + cs) == Apply(Append(p, c), cs)
  {
    assert ([c] + cs)[1..] == cs;
  }

  lemma LastComponent(p: Parts, tmp: string)
    ensures Apply(p, Comps(tmp[|tmp|..])) == p
  {
    CompsNone();
    assert tmp[|tmp|..] == "";
  }

  function Truncated(t: string): string { if |t| > 255 then t[..255] else t }

  /** The component list vfs_normalize computes. */
  function Normal(base: Parts, path: string): Parts {
    if path != "" && path[0] == '/' then Apply([], Comps(Truncated(path[1..])))
    else Apply(base, Comps(Truncated(path)))
  }

  lemma NormalEmpty(base: Parts)
    ensures Normal(base, "") == base
  {
  }

  /** Normalizing a normalized path changes nothing. */
  lemma NormalizeTwice(base: Parts, path: string, again: Parts)
    requires CanonicalParts(base) && |Render(Normal(base, path))| <= 256
    ensures Normal(again, Render(Normal(base, path))) == Normal(base, path)
  {
    hide Comps, Apply;
    NormalCanonical(base, path);
    NormalOfRender(again, Normal(base, path));
  }

  lemma NormalCanonical(base: Parts, path: string)
    requires CanonicalParts(base)
    ensures CanonicalParts(Normal(base, path))
  {
    hide Comps, Apply;
    if path != "" && path[0] == '/' {
      ApplyCanonical([], Comps(Truncated(path[1..])));
    } else {
      ApplyCanonical(base, Comps(Truncated(path)));
    }
  }

  lemma NormalOfRender(base: Parts, p: Parts)
    requires CanonicalParts(p) && |Render(p)| <= 256
    ensures Normal(base, Render(p)) == p
  {
    hide Comps, Apply, Join;
    CompsJoin(p);
    JoinStarts(p);
    var t := Render(p);
    SkipSlash(t);
    ApplyProper([], p);
  }
}
