/**
 * 8.3 names (fs/fat16.c:280-329): a file name becomes eleven upper-case bytes and
 * is shown again in lower case.
 */
module Fat16Names {
  import opened Bytes
  import opened Wrappers

  const SPACE: byte := 0x20
  const DOT: byte := 0x2E

  function Upper(c: byte): byte { if 0x61 <= c <= 0x7A then c - 32 else c }
  function Lower(c: byte): byte { if 0x41 <= c <= 0x5A then c + 32 else c }

  function Uppers(s: seq<byte>): (r: seq<byte>)
    ensures |r| == |s|
  {
    seq(|s|, i requires 0 <= i < |s| => Upper(s[i]))
  }

  function Lowers(s: seq<byte>): (r: seq<byte>)
    ensures |r| == |s|
  {
    seq(|s|, i requires 0 <= i < |s| => Lower(s[i]))
  }

  function Spaces(n: nat): seq<byte> { seq(n, i => SPACE) }

  predicate Clean(s: seq<byte>) {
    forall i :: 0 <= i < |s| ==> s[i] != 0x2F && s[i] != 0x5C && s[i] != SPACE
  }

  /** The index of the last dot, or the length. */
  function LastDot(s: seq<byte>): (k: nat)
    ensures k <= |s| && (k < |s| ==> s[k] == DOT && DOT !in s[k + 1..]) && (k == |s| ==> DOT !in s)
  {
    if s == [] then 0
    else if s[|s| - 1] == DOT then |s| - 1
    else
      var init := s[..|s| - 1];
      var k := LastDot(init);
      assert s == init + [s[|s| - 1]];
      if k < |init| then (assert s[k + 1..] == init[k + 1..] + [s[|s| - 1]]; k) else |s|
  }

  function Base(s: seq<byte>): seq<byte> { s[..LastDot(s)] }
  function Ext(s: seq<byte>): seq<byte> { if LastDot(s) < |s| then s[LastDot(s) + 1..] else [] }

  predicate Fits83(s: seq<byte>) {
    && s != [] && s != [DOT] && s != [DOT, DOT]
    && 0 < |Base(s)| <= 8 && |Ext(s)| <= 3 && Clean(Base(s)) && Clean(Ext(s))
  }

  function To83(s: seq<byte>): (r: seq<byte>)
    requires Fits83(s)
    ensures |r| == 11
  {
    Uppers(Base(s)) + Spaces(8 - |Base(s)|) + Uppers(Ext(s)) + Spaces(3 - |Ext(s)|)
  }

  /** What stands before the first space. */
  function Word(s: seq<byte>): (w: seq<byte>)
    ensures |w| <= |s|
  {
    if s == [] || s[0] == SPACE then [] else [s[0]] + Word(s[1..])
  }

  function From83(n: seq<byte>): seq<byte>
    requires |n| == 11
  {
    Lowers(Word(n[..8])) + if n[8..] == Spaces(3) then [] else [DOT] + Lowers(Word(n[8..]))
  }

  // ---- the round trip ----

  lemma {:induction false} WordPadded(s: seq<byte>, k: nat)
    requires Clean(s)
    ensures Word(s + Spaces(k)) == s
  {
    if s == [] {
      assert s + Spaces(k) == Spaces(k);
    } else {
      assert (s + Spaces(k))[1..] == s[1..] + Spaces(k);
      WordPadded(s[1..], k);
    }
  }

  lemma UppersClean(s: seq<byte>)
    requires Clean(s)
    ensures Clean(Uppers(s)) && Lowers(Uppers(s)) == Lowers(s)
  {
  }

  /** A name without its trailing dot. */
  function Shown(s: seq<byte>): seq<byte> {
    if s != [] && s[|s| - 1] == DOT then s[..|s| - 1] else s
  }

  /** What a stored name shows as: the name in lower case, a trailing dot lost. */
  lemma RoundTrip(s: seq<byte>)
    requires Fits83(s)
    ensures From83(To83(s)) == Lowers(Shown(s))
  {
    hide Word, LastDot, Clean, Uppers, Lowers, Spaces;
    var b, x := Base(s), Ext(s);
    UppersClean(b);
    UppersClean(x);
    Halves(b, x);
    WordPadded(Uppers(b), 8 - |b|);
    WordPadded(Uppers(x), 3 - |x|);
    hide Shown, Base, Ext, Fits83;
    ShownIs(s);
    LowersDot(b, x);
    var n := To83(s);
    assert From83(n) == Lowers(b) + if x == [] then [] else [DOT] + Lowers(x);
  }

  lemma ShownIs(s: seq<byte>)
    ensures Shown(s) == if Ext(s) == [] then Base(s) else s
    ensures Ext(s) != [] ==> s == Base(s) + [DOT] + Ext(s)
  {
    var x := Ext(s);
    if x != [] {
      assert s[|s| - 1] == x[|x| - 1];
    }
  }

  /** The two fields of a stored name; the second is blank only without an extension. */
  lemma Halves(b: seq<byte>, x: seq<byte>)
    requires |b| <= 8 && |x| <= 3 && Clean(x)
    ensures var n := Uppers(b) + Spaces(8 - |b|) + Uppers(x) + Spaces(3 - |x|);
            && n[..8] == Uppers(b) + Spaces(8 - |b|) && n[8..] == Uppers(x) + Spaces(3 - |x|)
            && (n[8..] == Spaces(3) <==> x == [])
  {
    var n := Uppers(b) + Spaces(8 - |b|) + Uppers(x) + Spaces(3 - |x|);
    assert x != [] ==> n[8..][0] == Upper(x[0]) != SPACE;
  }

  lemma LowersDot(b: seq<byte>, x: seq<byte>)
    ensures Lowers(b + [DOT] + x) == Lowers(b) + ([DOT] + Lowers(x))
  {
  }

  /** Names that show as "." or "..", which dir_is_empty skips. */
  predicate DotName(n: seq<byte>)
    requires |n| == 11
  {
    From83(n) == [DOT] || From83(n) == [DOT, DOT]
  }

  /** A stored name a slot can carry: in use, and not mistaken for a dot entry. */
  predicate Usable(n: seq<byte>) {
    |n| == 11 && n[0] != 0 && n[0] != 0xE5 && !DotName(n)
  }

  /** Every accepted name is usable except "..." and those starting with the deleted mark or NUL. */
  lemma UsableNames(s: seq<byte>)
    requires Fits83(s)
    ensures Usable(To83(s)) <==> s != [DOT, DOT, DOT] && s[0] != 0xE5 && s[0] != 0
  {
    RoundTrip(s);
    assert To83(s)[0] == Upper(s[0]);
    var t := Shown(s);
    LowerDots(t);
    if DotName(To83(s)) {
      assert Lowers(t) == [DOT] || Lowers(t) == [DOT, DOT];
      ShownDots(s);
    }
    if s == [DOT, DOT, DOT] {
      assert t == [DOT, DOT];
    }
  }

  lemma LowerDots(t: seq<byte>)
    ensures Lowers(t) == [DOT] <==> t == [DOT]
    ensures Lowers(t) == [DOT, DOT] <==> t == [DOT, DOT]
  {
    assert forall c: byte :: Lower(c) == DOT <==> c == DOT;
    if Lowers(t) == [DOT] {
      assert Lowers(t)[0] == DOT;
    }
    if Lowers(t) == [DOT, DOT] {
      assert Lowers(t)[0] == DOT && Lowers(t)[1] == DOT;
    }
  }

  lemma ShownDots(s: seq<byte>)
    requires s != [] && s != [DOT] && s != [DOT, DOT] && (Shown(s) == [DOT] || Shown(s) == [DOT, DOT])
    ensures s == [DOT, DOT, DOT]
  {
    assert s[|s| - 1] == DOT;
    assert s == Shown(s) + [DOT];
  }

  // ---- the loops ----

  /** One of the two copying loops of name_to_83: upper case, refusing separators and spaces. */
  method CopyUpper(buf: seq<byte>, at: nat, s: seq<byte>) returns (ok: bool, out: seq<byte>)
    requires at + |s| <= |buf|
    ensures ok <==> Clean(s)
    ensures ok ==> out == Put(buf, at, Uppers(s))
  {
    out := buf;
    var i := 0;
    while i < |s|
      invariant 0 <= i <= |s| && |out| == |buf| && Clean(s[..i])
      invariant forall k :: 0 <= k < |buf| ==> out[k] == if at <= k < at + i then Upper(s[k - at]) else buf[k]
    {
      var c := s[i];
      assert s[..i + 1] == s[..i] + [c];
      if c == 0x2F || c == 0x5C || c == SPACE {
        return false, out;
      }
      out := out[at + i := Upper(c)];
      i := i + 1;
    }
    assert s[..i] == s;
    return true, out;
  }

  /** name_to_83 (fs/fat16.c:280-307) */
  method NameTo83(name: seq<byte>) returns (out: Option<seq<byte>>)
    ensures out == if Fits83(name) then Some(To83(name)) else None
  {
    hide Clean, Uppers, Spaces, Put;
    if name == [] || name == [DOT] || name == [DOT, DOT] {
      return None;
    }
    var dot := LastDot(name);
    var base, ext := name[..dot], if dot < |name| then name[dot + 1..] else [];
    if |base| == 0 || |base| > 8 || |ext| > 3 {
      return None;
    }
    SpacesSize(11);
    var ok, buf := CopyUpper(Spaces(11), 0, base);
    if !ok {
      return None;
    }
    ok, buf := CopyUpper(buf, 8, ext);
    if !ok {
      return None;
    }
    Assembled(base, ext);
    return Some(buf);
  }

  lemma SpacesSize(n: nat)
    ensures |Spaces(n)| == n
  {
  }

  /** The two copies into a blank buffer make the stored name. */
  lemma Assembled(b: seq<byte>, x: seq<byte>)
    requires |b| <= 8 && |x| <= 3
    ensures |Spaces(11)| == 11
    ensures Put(Put(Spaces(11), 0, Uppers(b)), 8, Uppers(x)) ==
              Uppers(b) + Spaces(8 - |b|) + Uppers(x) + Spaces(3 - |x|)
  {
    var p := Put(Put(Spaces(11), 0, Uppers(b)), 8, Uppers(x));
    var q := Uppers(b) + Spaces(8 - |b|) + Uppers(x) + Spaces(3 - |x|);
    hide Put;
    assert |p| == |q| == 11;
    forall k | 0 <= k < 11 ensures p[k] == q[k] {
    }
  }

  /** One of the two reading loops of name_from_83: lower case, up to a space. */
  method CopyLower(s: seq<byte>) returns (out: seq<byte>)
    ensures out == Lowers(Word(s))
  {
    hide Word, Lowers;
    out := [];
    var i := 0;
    LowersStart(s);
    while i < |s| && s[i] != SPACE
      invariant 0 <= i <= |s| && out == Lowers(s[..i]) && Word(s) == s[..i] + Word(s[i..])
    {
      WordStep(s, i);
      LowersStep(s, i);
      out := out + [Lower(s[i])];
      i := i + 1;
    }
    WordEnds(s, i);
    assert s[..i] + [] == s[..i];
  }

  lemma WordStep(s: seq<byte>, i: nat)
    requires i < |s| && s[i] != SPACE
    ensures s[..i] + Word(s[i..]) == s[..i + 1] + Word(s[i + 1..])
  {
    assert s[i..][1..] == s[i + 1..];
    assert s[..i + 1] == s[..i] + [s[i]];
  }

  lemma LowersStart(s: seq<byte>)
    ensures Lowers(s[..0]) == [] && s[..0] + Word(s[0..]) == Word(s)
  {
    assert s[0..] == s;
  }

  lemma LowersStep(s: seq<byte>, i: nat)
    requires i < |s|
    ensures Lowers(s[..i]) + [Lower(s[i])] == Lowers(s[..i + 1])
  {
  }

  lemma WordEnds(s: seq<byte>, i: nat)
    requires i <= |s| && (i < |s| ==> s[i] == SPACE)
    ensures Word(s[i..]) == []
  {
  }

  /** name_from_83 (fs/fat16.c:309-329) */
  method NameFrom83(n: seq<byte>) returns (out: seq<byte>)
    requires |n| == 11
    ensures out == From83(n)
  {
    hide Word, Lowers;
    out := CopyLower(n[..8]);
    var hasExt := false;
    var i := 8;
    while i < 11 && !hasExt
      invariant 8 <= i <= 11 && (hasExt ==> i < 11 && n[i] != SPACE)
      invariant !hasExt ==> forall k :: 8 <= k < i ==> n[k] == SPACE
      decreases 11 - i, !hasExt
    {
      if n[i] != SPACE {
        hasExt := true;
      } else {
        i := i + 1;
      }
    }
    if hasExt {
      assert n[8..][i - 8] != SPACE;
      var ext := CopyLower(n[8..]);
      out := out + ([DOT] + ext);
    } else {
      assert n[8..] == Spaces(3);
      assert out + [] == out;
    }
  }
}
