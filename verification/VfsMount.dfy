/**
 * The mount table (fs/vfs.c:62-142): which driver a path belongs to, and the
 * sub-path that driver is handed.
 */
module VfsMount {
  import opened Paths

  const MAX_MOUNTS: nat := 8

  /** vfs_mount_t; the driver's operation table is just a number here */
  datatype Mount = Mount(point: string, ops: nat)

  /** path_under_mount (fs/vfs.c:89-95) */
  predicate Under(path: string, mnt: string) {
    && |mnt| <= |path| && path[..|mnt|] == mnt
    && (|mnt| <= 1 || |path| == |mnt| || path[|mnt|] == '/')
  }

  /**
   * A path is under a mount point exactly when the mount point's components come first: "/fat" does
   * not cover "/fatabc".
   */
  lemma UnderIsPrefix(p: Parts, m: Parts)
    requires CanonicalParts(p) && CanonicalParts(m)
    ensures Under(Render(p), Render(m)) <==> m <= p
  {
    hide Join;
    JoinStarts(p);
    JoinStarts(m);
    if m <= p {
      assert p == m + p[|m|..];
      JoinConcat(m, p[|m|..]);
      JoinStarts(p[|m|..]);
      NoText();
    }
    if m != [] && Under(Render(p), Render(m)) {
      var t := Render(p)[|Render(m)|..];
      assert Render(p) == Render(m) + t;
      CompsConcat(Render(m), t);
      CompsJoin(p);
      CompsJoin(m);
    }
  }

  lemma NoText()
    ensures Join([]) == ""
  {
  }

  /** Among mount points covering the same path, more components means more text. */
  lemma LongerText(p: Parts, a: Parts, b: Parts)
    requires CanonicalParts(p) && a <= p && b <= p && |a| < |b|
    ensures |Render(a)| < |Render(b)|
  {
    hide Join;
    assert a == p[..|a|] && b == p[..|b|];
    assert b == a + b[|a|..];
    JoinConcat(a, b[|a|..]);
    JoinStarts(b[|a|..]);
    JoinStarts(b);
    NoText();
  }

  lemma Longest(points: seq<Parts>, p: Parts, best: nat)
    requires CanonicalParts(p) && best < |points| && points[best] <= p
    requires forall j :: 0 <= j < |points| && points[j] <= p ==> |Render(points[j])| <= |Render(points[best])|
    ensures forall j :: 0 <= j < |points| && points[j] <= p ==> |points[j]| <= |points[best]|
  {
    hide Join, Render;
    forall j | 0 <= j < |points| && points[j] <= p ensures |points[j]| <= |points[best]| {
      if |points[best]| < |points[j]| {
        LongerText(p, points[best], points[j]);
      }
    }
  }

  /** What the driver below a mount point sees. */
  lemma SubPath(p: Parts, m: Parts)
    requires CanonicalParts(p) && m <= p
    ensures |Render(m)| <= |Render(p)|
    ensures var rest := if |Render(m)| <= 1 then Render(p) else Render(p)[|Render(m)|..];
            Render(p[|m|..]) == if rest == "" then "/" else rest
  {
    hide Join;
    JoinStarts(m);
    JoinStarts(p);
    NoText();
    if m != [] {
      assert p == m + p[|m|..];
      JoinConcat(m, p[|m|..]);
      assert Join(p)[|Join(m)|..] == Join(p[|m|..]);
      JoinStarts(p[|m|..]);
    } else {
      assert p[0..] == p;
    }
  }

  class MountTable {
    var mounts: seq<Mount>
    /** The component lists of the mount points. */
    ghost var points: seq<Parts>

    ghost predicate Valid()
      reads this
    {
      && |mounts| == |points| <= MAX_MOUNTS
      && (forall i :: 0 <= i < |mounts| ==> CanonicalParts(points[i]) && mounts[i].point == Render(points[i]))
      && (forall i, j :: 0 <= i < j < |points| ==> points[i] != points[j])
    }

    /** vfs_init */
    constructor ()
      ensures Valid() && mounts == []
    {
      mounts, points := [], [];
    }

    /** vfs_mount (fs/vfs.c:62-84): mounting again at a point replaces the driver. */
    method Add(point: string, ghost parts: Parts, ops: nat) returns (ok: bool)
      requires Valid() && CanonicalParts(parts) && point == Render(parts)
      modifies this
      ensures Valid()
      ensures ok <==> parts in old(points) || |old(mounts)| < MAX_MOUNTS
      ensures !ok ==> mounts == old(mounts) && points == old(points)
      ensures ok && parts in old(points) ==> points == old(points) && exists i ::
                0 <= i < |points| && points[i] == parts && mounts == old(mounts)[i := Mount(point, ops)]
      ensures ok && parts !in old(points) ==>
                points == old(points) + [parts] && mounts == old(mounts) + [Mount(point, ops)]
    {
      var i := 0;
      while i < |mounts|
        invariant 0 <= i <= |mounts| && parts !in points[..i]
      {
        if mounts[i].point == point {
          RenderInjective(points[i], parts);
          mounts := mounts[i := Mount(point, ops)];
          return true;
        }
        assert points[..i + 1] == points[..i] + [points[i]];
        i := i + 1;
      }
      assert points[..i] == points;
      if |mounts| >= MAX_MOUNTS {
        return false;
      }
      mounts := mounts + [Mount(point, ops)];
      points := points + [parts];
      return true;
    }

    /** vfs_find_mount (fs/vfs.c:97-112): the mount with the longest point above the path. */
    method FindMount(path: string, ghost p: Parts) returns (found: bool, best: nat)
      requires Valid() && CanonicalParts(p) && path == Render(p)
      ensures found <==> exists i :: 0 <= i < |points| && points[i] <= p
      ensures found ==> best < |mounts| && points[best] <= p
      ensures found ==> forall i :: 0 <= i < |points| && points[i] <= p ==> |points[i]| <= |points[best]|
    {
      hide Join, Render;
      found, best := false, 0;
      var bestLen := 0;
      var i := 0;
      while i < |mounts|
        invariant 0 <= i <= |mounts| && (!found ==> bestLen == 0)
        invariant found <==> exists j :: 0 <= j < i && points[j] <= p
        invariant found ==> best < i && points[best] <= p && bestLen == |mounts[best].point|
        invariant forall j :: 0 <= j < i && points[j] <= p ==> |Render(points[j])| <= bestLen
      {
        var len := |mounts[i].point|;
        UnderIsPrefix(p, points[i]);
        if Under(path, mounts[i].point) && len >= bestLen {
          found, best, bestLen := true, i, len;
        }
        i := i + 1;
      }
      if found {
        Longest(points, p, best);
      }
    }

    /** vfs_dispatch (fs/vfs.c:130-142): the rest of the path, again absolute and canonical. */
    method Dispatch(path: string, ghost p: Parts) returns (found: bool, best: nat, sub: string)
      requires Valid() && CanonicalParts(p) && path == Render(p)
      ensures found <==> exists i :: 0 <= i < |points| && points[i] <= p
      ensures found ==> best < |mounts| && points[best] <= p && sub == Render(p[|points[best]|..])
      ensures found ==> forall i :: 0 <= i < |points| && points[i] <= p ==> |points[i]| <= |points[best]|
    {
      sub := "";
      found, best := FindMount(path, p);
      if found {
        SubPath(p, points[best]);
        var len := |mounts[best].point|;
        var rest := if len <= 1 then path else path[len..];
        sub := if rest == "" then "/" else rest;
      }
    }
  }
}
