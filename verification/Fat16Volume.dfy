/**
 * A FAT16 volume and the chain operations on it (fs/fat16.c:113-192, 468-525,
 * 641-680).  Sectors are taken a cluster at a time, and transfers succeed.
 */
module Fat16Volume {
  import opened Arith
  import opened Bytes
  import opened Fat16Table

  /** What a volume holds: the table, the clusters, the root directory's slots. */
  datatype FatVol = FatVol(fat: seq<nat>, data: seq<Cluster>, root: seq<Entry>)

  ghost predicate Shaped(v: FatVol, g: Geometry) {
    && g.Ok() && |v.fat| == TABLE && |v.data| == g.max && |v.root| == g.rootCount
    && forall c: nat :: c < |v.data| ==> |v.data[c]| == g.Size()
  }

  // ---- the bytes along a chain ----

  function ChainBytes(d: seq<Cluster>, s: seq<nat>): seq<byte>
    requires forall i :: 0 <= i < |s| ==> s[i] < |d|
  {
    if s == [] then [] else ChainBytes(d, s[..|s| - 1]) + d[s[|s| - 1]]
  }

  lemma {:induction false} BytesKept(d: seq<Cluster>, e: seq<Cluster>, s: seq<nat>)
    requires (forall i :: 0 <= i < |s| ==> s[i] < |d|) && |e| == |d| && forall i :: 0 <= i < |s| ==> e[s[i]] == d[s[i]]
    ensures ChainBytes(e, s) == ChainBytes(d, s)
  {
    if s != [] {
      BytesKept(d, e, s[..|s| - 1]);
    }
  }

  lemma {:induction false} BytesLength(d: seq<Cluster>, s: seq<nat>, size: nat)
    requires (forall i :: 0 <= i < |s| ==> s[i] < |d|) && forall i :: 0 <= i < |s| ==> |d[s[i]]| == size
    ensures |ChainBytes(d, s)| == |s| * size
  {
    if s != [] {
      BytesLength(d, s[..|s| - 1], size);
      assert |s| * size == (|s| - 1) * size + size;
    }
  }

  /** Cluster k of the padded data. */
  function Padded(bytes: seq<byte>, size: nat, k: nat): (c: Cluster)
    requires size * k <= |bytes|
    ensures |c| == size
  {
    var rest := bytes[size * k..];
    if |rest| >= size then rest[..size] else rest + Zeros(size - |rest|)
  }

  class FatVolume {
    const geo: Geometry
    var copies: seq<seq<nat>>
    var data: seq<Cluster>
    var root: seq<Entry>

    /** All copies of the table agree. */
    ghost predicate Valid()
      reads this
    {
      |copies| >= 1 && (forall i :: 0 <= i < |copies| ==> copies[i] == copies[0])
        && Shaped(FatVol(copies[0], data, root), geo)
    }

    ghost function View(): FatVol
      reads this
      requires Valid()
    {
      FatVol(copies[0], data, root)
    }

    /** fat_read (fs/fat16.c:113-124) */
    method FatRead(c: nat) returns (value: nat)
      requires Valid() && c < TABLE
      ensures value == View().fat[c]
    {
      value := copies[0][c];
    }

    /** fat_write (fs/fat16.c:126-144): every copy */
    method FatWrite(c: nat, value: nat)
      requires Valid() && c < TABLE
      modifies this`copies
      ensures Valid() && View() == old(View()).(fat := old(View()).fat[c := value])
    {
      ghost var was := copies[0];
      var fat := 0;
      while fat < |copies|
        invariant 0 <= fat <= |copies| && |copies| == |old(copies)|
        invariant forall i :: 0 <= i < |copies| ==> copies[i] == if i < fat then was[c := value] else was
      {
        var sector: seq<nat> := copies[fat][c := value];
        copies := copies[fat := sector];
        fat := fat + 1;
      }
    }

    /** alloc_cluster (fs/fat16.c:158-177): the first free cluster, zeroed; 0 if none */
    method AllocCluster() returns (c: nat)
      requires Valid()
      modifies this`copies, this`data
      ensures Valid()
      ensures c == 0 <==> forall x: nat :: 2 <= x < geo.max ==> old(View()).fat[x] != FREE
      ensures c == 0 ==> View() == old(View())
      ensures c != 0 ==> 2 <= c < geo.max && old(View()).fat[c] == FREE && forall x: nat :: 2 <= x < c ==>
                old(View()).fat[x] != FREE
      ensures c != 0 ==>
                View() == old(View()).(fat := old(View()).fat[c := LAST],
                data := old(View()).data[c := Zeros(geo.Size())])
    {
      c := 2;
      while c < geo.max
        invariant 2 <= c <= geo.max && Valid() && View() == old(View())
        invariant forall x: nat :: 2 <= x < c ==> View().fat[x] != FREE
      {
        var value := FatRead(c);
        if value == FREE {
          FatWrite(c, LAST);
          data := data[c := Zeros(geo.Size())];
          return;
        }
        c := c + 1;
      }
      return 0;
    }

    /** free_chain (fs/fat16.c:179-192); it ends on every table, cyclic ones included */
    method FreeChain(first: nat)
      requires Valid()
      modifies this`copies
      ensures Valid() && View() == old(View()).(fat := FreeFrom(old(View()).fat, first))
    {
      hide FreeFrom;
      var cluster: nat := first;
      ghost var goal := FreeFrom(copies[0], first);
      while 2 <= cluster < EOC
        invariant Valid() && View() == old(View()).(fat := View().fat)
        invariant goal == FreeFrom(View().fat, cluster)
        decreases InUse(copies[0], TABLE)
      {
        var next := FatRead(cluster);
        FreeFromStep(copies[0], cluster);
        InUseDrops(copies[0], cluster, TABLE);
        FatWrite(cluster, FREE);
        if next >= EOC || next == FREE {
          return;
        }
        cluster := next;
      }
      FreeFromNothing(copies[0], cluster);
    }

    /** fs/fat16.c:478-497: take and link as many clusters as the data needs, or give all of them back. */
    method TakeChain(needed: nat) returns (ok: bool, first: nat, ghost s: seq<nat>)
      requires Valid() && needed > 0
      modifies this`copies, this`data
      ensures Valid()
      ensures ok <==> FreeCount(old(View()).fat, geo.max) >= needed
      ensures !ok ==> Untaken(old(View()), View())
      ensures ok ==> |s| == needed && first == s[0] && Taking(old(View()), View(), geo.max, s)
    {
      hide FreeFrom, Taking, Untaken, FreeCount;
      ghost var v := View();
      first, s := 0, [];
      TakeStart(v, geo);
      var prev: nat := 0;
      var i := 0;
      while i < needed
        invariant 0 <= i <= needed && Valid() && |s| == i && Taking(v, View(), geo.max, s)
        invariant i > 0 ==> first == s[0] != 0 && prev == s[i - 1] != 0
        invariant i == 0 ==> first == 0 == prev
        invariant FreeCount(v.fat, geo.max) == FreeCount(View().fat, geo.max) + i
                  && (prev != 0 ==> prev < TABLE && View().fat[prev] != FREE)
      {
        ghost var u := View();
        NoneFree(u.fat, geo.max);
        var c := AllocCluster();
        if c == 0 {
          TakeUndo(v, u, geo.max, s);
          if first != 0 {
            FreeChain(first);
          }
          return false, 0, s;
        }
        TakeStep(v, u, geo, s, c);
        FreeCountUpdate(u.fat, c, LAST, geo.max);
        if first == 0 {
          first := c;
        }
        if prev != 0 {
          FreeCountUpdate(u.fat[c := LAST], prev, c, geo.max);
          FatWrite(prev, c);
        }
        s := s + [c];
        prev := c;
        i := i + 1;
      }
      TakeEnd(v, View(), geo.max, s);
      FatWrite(prev, LAST);
      return true, first, s;
    }

    /** fs/fat16.c:498-522: the data goes into the clusters of the chain, the last one zero-padded. */
    method FillChain(first: nat, bytes: seq<byte>, ghost s: seq<nat>)
      requires Valid() && Chain(View().fat, geo.max, s) && first == s[0] && |s| == CeilDiv(|bytes|, geo.Size())
      modifies this`data
      ensures Valid() && View() == old(View()).(data := View().data)
      ensures Filled(old(View()).data, View().data, s, bytes, geo.Size(), |s|)
    {
      hide Chain, CeilDiv, Filling, Filled;
      ghost var d, f := data, copies[0];
      var size := geo.Size();
      var written: nat := 0;
      var cluster: nat := first;
      ghost var k := 0;
      FillStart(d, f, geo.max, s, bytes, size);
      while 2 <= cluster < EOC && written < |bytes|
        invariant k <= |s| && Valid() && copies == old(copies) && root == old(root)
        invariant Filling(d, data, s, bytes, size, k, cluster, written)
        decreases |s| - k
      {
        FillNext(d, data, f, geo.max, s, bytes, size, k, cluster, written);
        var rest := |bytes| - written;
        var chunk := if rest > size then size else rest;
        data := data[cluster := bytes[written..written + chunk] + Zeros(size - chunk)];
        written := written + chunk;
        cluster := FatRead(cluster);
        k := k + 1;
      }
      FillDone(d, data, s, bytes, size, k, cluster, written);
    }

    /** write_new_chain (fs/fat16.c:468-525): the data in a fresh chain, or nothing taken at all */
    method WriteNewChain(bytes: seq<byte>) returns (ok: bool, first: nat, ghost s: seq<nat>)
      requires Valid()
      modifies this`copies, this`data
      ensures Valid()
      ensures ok <==> Enough(old(View()), geo, bytes)
      ensures !ok ==> Untaken(old(View()), View())
      ensures ok && bytes == [] ==> first == 0 && s == [] && View() == old(View())
      ensures ok && bytes != [] ==> s != [] && first == s[0] && NewChain(old(View()), View(), geo, s, bytes)
    {
      hide Untaken, Taking, Chain, CeilDiv, Filled, FreeCount;
      if bytes == [] {
        return true, 0, [];
      }
      ghost var v := View();
      CeilDivMeans(|bytes|, geo.Size());
      var needed := CeilDiv(|bytes|, geo.Size());
      ok, first, s := TakeChain(needed);
      if !ok {
        return;
      }
      ghost var u := View();
      TakingIsChain(v, u, geo.max, s);
      FillChain(first, bytes, s);
      FilledTaking(v, u, View(), geo, s, bytes);
    }

    /** fs/fat16.c:652-672: the first `size` bytes along a chain */
    method ReadChain(first: nat, size: nat, ghost s: seq<nat>) returns (out: seq<byte>)
      requires Valid() && (size > 0 ==> Chain(View().fat, geo.max, s) && first == s[0] && size <= |s| * geo.Size())
      ensures size > 0 ==> out == FirstBytes(View().data, geo, s, size)
      ensures |out| == size
    {
      hide Chain, ChainBytes, Reading;
      out := [];
      if size == 0 {
        return;
      }
      var cluster: nat := first;
      ghost var k := 0;
      ReadStart(data, copies[0], geo, s, size);
      while 2 <= cluster < EOC && |out| < size
        invariant k <= |s| && Reading(data, geo.Size(), s, size, k, cluster, out)
        decreases |s| - k
      {
        ReadNext(data, copies[0], geo, s, size, k, cluster, out);
        var rest := size - |out|;
        var chunk := if rest > geo.Size() then geo.Size() else rest;
        out := out + data[cluster][..chunk];
        cluster := FatRead(cluster);
        k := k + 1;
      }
      ReadDone(data, copies[0], geo, s, size, k, cluster, out);
    }
  }

  /** So many clusters are free as the bytes need. */
  ghost predicate Enough(v: FatVol, g: Geometry, bytes: seq<byte>) {
    Shaped(v, g) && (bytes == [] || FreeCount(v.fat, g.max) >= CeilDiv(|bytes|, g.Size()))
  }

  /** How many clusters hold n bytes. */
  function CeilDiv(n: nat, size: nat): nat
    requires size > 0
  {
    QuotientNat(n + size - 1, size);
    (n + size - 1) / size
  }

  lemma QuotientNat(a: nat, size: nat)
    requires size > 0
    ensures a / size >= 0
  {
    DivMod(a, size);
  }

  lemma CeilDivMeans(n: nat, size: nat)
    requires size > 0
    ensures n <= CeilDiv(n, size) * size && (n > 0 ==> CeilDiv(n, size) > 0 && (CeilDiv(n, size) - 1) * size < n)
  {
    DivMod(n + size - 1, size);
    Distr(CeilDiv(n, size) - 1, 1, size);
  }

  /** Where the k-th cluster of the data lies. */
  lemma NextChunk(n: nat, size: nat, count: nat, k: nat)
    requires size > 0 && k < count && n <= count * size && (count - 1) * size < n
    ensures size * k < n && (k + 1 < count ==> n - size * k > size && size * (k + 1) == size * k + size)
            && (k + 1 == count ==> n - size * k <= size)
  {
    Distr(k, 1, size);
    assert size * k == k * size;
    assert size * (k + 1) == (k + 1) * size;
    if k + 1 < count {
      Distr(k + 1, count - 1 - (k + 1), size);
      MulNat(count - 1 - (k + 1), size);
    }
  }

  lemma MulNat(a: nat, b: nat)
    ensures a * b >= 0
  {
  }

  lemma PaddedIs(bytes: seq<byte>, size: nat, k: nat)
    requires size * k < |bytes|
    ensures var rest := |bytes| - size * k; var chunk := if rest > size then size else rest;
            bytes[size * k..size * k + chunk] + Zeros(size - chunk) == Padded(bytes, size, k)
  {
  }

  /** The first k clusters of s hold the data, the other clusters are as before. */
  ghost predicate Filled(d: seq<Cluster>, e: seq<Cluster>, s: seq<nat>, bytes: seq<byte>, size: nat, k: nat) {
    && |e| == |d| && k <= |s|
    && (forall i: nat :: i < k ==> HoldsChunk(e, s, bytes, size, i))
    && forall c: nat :: c < |d| && c !in s[..k] ==> e[c] == d[c]
  }

  ghost predicate HoldsChunk(e: seq<Cluster>, s: seq<nat>, bytes: seq<byte>, size: nat, i: nat) {
    i < |s| && s[i] < |e| && size * i <= |bytes| && e[s[i]] == Padded(bytes, size, i)
  }

  /** The loop of FillChain before its k-th round. */
  ghost predicate Filling(d: seq<Cluster>, e: seq<Cluster>, s: seq<nat>, bytes: seq<byte>, size: nat, k: nat,
      cluster: nat, written: nat) {
    && Filled(d, e, s, bytes, size, k)
    && (k < |s| ==> cluster == s[k] && 2 <= cluster < EOC && written == size * k < |bytes|)
    && (k == |s| ==> written == |bytes|)
  }

  lemma FillStart(d: seq<Cluster>, f: seq<nat>, max: nat, s: seq<nat>, bytes: seq<byte>, size: nat)
    requires Chain(f, max, s) && size > 0 && |s| == CeilDiv(|bytes|, size)
    ensures Filling(d, d, s, bytes, size, 0, s[0], 0)
  {
    hide CeilDiv;
    CeilDivMeans(|bytes|, size);
    ChainAt(f, max, s, 0);
    assert s[..0] == [];
    if bytes == [] {
      assert |s| * size >= size by { AtLeast(|s|, size); }
      NoBytes(size);
    }
  }

  lemma NoBytes(size: nat)
    requires size > 0
    ensures CeilDiv(0, size) == 0
  {
    ModUnique(size - 1, 0, size - 1, size);
  }

  lemma FillNext(d: seq<Cluster>, e: seq<Cluster>, f: seq<nat>, max: nat, s: seq<nat>, bytes: seq<byte>, size: nat,
      k: nat, cluster: nat, written: nat)
    requires Chain(f, max, s) && size > 0 && |s| == CeilDiv(|bytes|, size) && |d| == max
    requires Filling(d, e, s, bytes, size, k, cluster, written) && 2 <= cluster < EOC && written < |bytes|
    ensures k < |s| && cluster < max && |e| == max
    ensures var rest := |bytes| - written; var chunk := if rest > size then size else rest;
            Filling(d, e[cluster := bytes[written..written + chunk] + Zeros(size - chunk)], s, bytes, size, k
              + 1, f[cluster], written + chunk)
  {
    hide CeilDiv, Padded, Follows;
    assert k < |s|;
    CeilDivMeans(|bytes|, size);
    NextChunk(|bytes|, size, |s|, k);
    ChainAt(f, max, s, k);
    FillStep(d, e, f, max, s, bytes, size, k);
    PaddedIs(bytes, size, k);
    if k + 1 < |s| {
      ChainAt(f, max, s, k + 1);
      NextChunk(|bytes|, size, |s|, k + 1);
    }
  }

  lemma FillDone(d: seq<Cluster>, e: seq<Cluster>, s: seq<nat>, bytes: seq<byte>, size: nat, k: nat, cluster: nat,
      written: nat)
    requires Filling(d, e, s, bytes, size, k, cluster, written) && !(2 <= cluster < EOC && written < |bytes|)
    ensures k == |s| && Filled(d, e, s, bytes, size, |s|)
  {
    hide HoldsChunk;
  }

  lemma FillStep(d: seq<Cluster>, e: seq<Cluster>, f: seq<nat>, max: nat, s: seq<nat>, bytes: seq<byte>, size: nat,
      k: nat)
    requires Filled(d, e, s, bytes, size, k) && Chain(f, max, s) && k < |s| && |d| == max && size * k <= |bytes|
    ensures Filled(d, e[s[k] := Padded(bytes, size, k)], s, bytes, size, k + 1)
  {
    hide Padded, Follows;
    var e' := e[s[k] := Padded(bytes, size, k)];
    forall i: nat | i < k + 1 ensures HoldsChunk(e', s, bytes, size, i) {
      if i < k {
        assert HoldsChunk(e, s, bytes, size, i) && s[i] != s[k];
      }
    }
    assert s[..k + 1] == s[..k] + [s[k]];
  }

  lemma ChainInside(f: seq<nat>, max: nat, s: seq<nat>)
    requires Chain(f, max, s)
    ensures forall i :: 0 <= i < |s| ==> s[i] < max
  {
  }

  lemma TakingIsChain(v: FatVol, u: FatVol, max: nat, s: seq<nat>)
    requires Taking(v, u, max, s) && s != []
    ensures Chain(u.fat, max, s)
  {
    TakenIsChain(v.fat, u.fat, max, s);
  }

  /** A fresh chain holds the data: its clusters were free, everything in use is untouched. */
  ghost predicate NewChain(v: FatVol, w: FatVol, g: Geometry, s: seq<nat>, bytes: seq<byte>) {
    && Taking(v, w, g.max, s) && Chain(w.fat, g.max, s) && |s| * g.Size() >= |bytes|
    && (forall i :: 0 <= i < |s| ==> s[i] < |w.data|)
    && |ChainBytes(w.data, s)| >= |bytes| && ChainBytes(w.data, s)[..|bytes|] == bytes
  }

  lemma FilledTaking(v: FatVol, u: FatVol, w: FatVol, g: Geometry, s: seq<nat>, bytes: seq<byte>)
    requires Shaped(u, g) && Taking(v, u, g.max, s) && Chain(u.fat, g.max, s) && w == u.(data := w.data) && bytes != []
    requires |s| == CeilDiv(|bytes|, g.Size()) && Filled(u.data, w.data, s, bytes, g.Size(), |s|)
    ensures NewChain(v, w, g, s, bytes)
  {
    hide Chain, CeilDiv, HoldsChunk, LinkedAs;
    CeilDivMeans(|bytes|, g.Size());
    assert s[..|s|] == s;
    assert SparesUsed(v, w) by {
      forall c: nat | c < |v.data| && v.fat[c] != FREE ensures w.data[c] == v.data[c] {
        assert c !in s;
      }
    }
    ChainInside(u.fat, g.max, s);
    FilledBytes(w.data, s, bytes, g.Size(), |s|);
    Distr(|s| - 1, 1, g.Size());
  }

  /** Along the chain the clusters spell the data. */
  lemma {:induction false} FilledBytes(e: seq<Cluster>, s: seq<nat>, bytes: seq<byte>, size: nat, k: nat)
    requires size > 0 && k <= |s| && (forall i: nat :: i < k ==> HoldsChunk(e, s, bytes, size, i))
             && (forall i :: 0 <= i < |s| ==> s[i] < |e|)
    requires k > 0 ==> (k - 1) * size < |bytes|
    ensures |ChainBytes(e, s[..k])| == k * size
    ensures var n := if k * size <= |bytes| then k * size else |bytes|; ChainBytes(e, s[..k])[..n] == bytes[..n]
  {
    if k > 0 {
      Distr(k - 1, 1, size);
      if k > 1 {
        Distr(k - 2, 1, size);
      }
      FilledBytes(e, s, bytes, size, k - 1);
      assert s[..k][..k - 1] == s[..k - 1];
      assert HoldsChunk(e, s, bytes, size, k - 1);
      var p := ChainBytes(e, s[..k - 1]);
      var c := Padded(bytes, size, k - 1);
      assert ChainBytes(e, s[..k]) == p + c;
      PaddedSpells(bytes, size, k - 1, p, c);
    }
  }

  lemma PaddedSpells(bytes: seq<byte>, size: nat, k: nat, p: seq<byte>, c: seq<byte>)
    requires size > 0 && k * size < |bytes| && |p| == k * size && p == bytes[..k * size] && size * k == k * size
             && c == Padded(bytes, size, k)
    ensures (k + 1) * size == k * size + size
    ensures var n := if k * size + size <= |bytes| then k * size + size else |bytes|; (p + c)[..n] == bytes[..n]
  {
    Distr(k, 1, size);
    var at := k * size;
    var rest := bytes[at..];
    assert bytes == bytes[..at] + rest;
    if |rest| >= size {
      assert bytes[..at + size] == bytes[..at] + rest[..size];
    } else {
      assert (p + c)[..|bytes|] == p + rest;
    }
  }

  // ---- reading ----

  /** The first `size` bytes along a chain. */
  function FirstBytes(d: seq<Cluster>, g: Geometry, s: seq<nat>, size: nat): (r: seq<byte>)
    requires (forall i :: 0 <= i < |s| ==> s[i] < |d|)
  {
    var all := ChainBytes(d, s);
    if size <= |all| then all[..size] else all
  }

  /** The clusters before the k-th have been copied, up to the size. */
  ghost predicate ReadUpTo(d: seq<Cluster>, cs: nat, s: seq<nat>, size: nat, k: nat, out: seq<byte>) {
    && k <= |s| && (forall i :: 0 <= i < |s| ==> s[i] < |d|)
    && var all := ChainBytes(d, s[..k]);
       |all| == k * cs && out == if |all| <= size then all else all[..size]
  }

  /** The loop of ReadChain before its k-th round. */
  ghost predicate Reading(d: seq<Cluster>, cs: nat, s: seq<nat>, size: nat, k: nat, cluster: nat, out: seq<byte>) {
    && ReadUpTo(d, cs, s, size, k, out)
    && (k < |s| ==> cluster == s[k] && 2 <= cluster < EOC)
    && (k == |s| ==> |out| == size)
  }

  lemma ReadStart(d: seq<Cluster>, f: seq<nat>, g: Geometry, s: seq<nat>, size: nat)
    requires g.Ok() && Chain(f, g.max, s) && |d| == g.max
    ensures Reading(d, g.Size(), s, size, 0, s[0], [])
  {
    ChainAt(f, g.max, s, 0);
    ChainInside(f, g.max, s);
    assert s[..0] == [];
  }

  lemma ReadNext(d: seq<Cluster>, f: seq<nat>, g: Geometry, s: seq<nat>, size: nat, k: nat, cluster: nat,
      out: seq<byte>)
    requires g.Ok() && Chain(f, g.max, s) && |d| == g.max && (forall c: nat :: c < |d| ==> |d[c]| == g.Size())
             && size <= |s| * g.Size()
    requires Reading(d, g.Size(), s, size, k, cluster, out) && 2 <= cluster < EOC && |out| < size
    ensures k < |s| && cluster < |d| && |d[cluster]| == g.Size()
    ensures var rest := size - |out|; var chunk := if rest > g.Size() then g.Size() else rest;
            Reading(d, g.Size(), s, size, k + 1, f[cluster], out + d[cluster][..chunk])
  {
    hide ChainBytes, Follows;
    ChainAt(f, g.max, s, k);
    ReadStep(d, g.Size(), s, size, k, out);
    if k + 1 < |s| {
      ChainAt(f, g.max, s, k + 1);
    }
  }

  lemma ReadStep(d: seq<Cluster>, cs: nat, s: seq<nat>, size: nat, k: nat, out: seq<byte>)
    requires ReadUpTo(d, cs, s, size, k, out) && k < |s| && |out| < size && |d[s[k]]| == cs && cs > 0
             && size <= |s| * cs
    ensures var rest := size - |out|; var chunk := if rest > cs then cs else rest;
            ReadUpTo(d, cs, s, size, k + 1, out + d[s[k]][..chunk]) && (k + 1 == |s| ==> |out| + chunk == size)
  {
    Distr(k, 1, cs);
    assert s[..k + 1][..k] == s[..k];
    var all := ChainBytes(d, s[..k]);
    assert ChainBytes(d, s[..k + 1]) == all + d[s[k]];
    assert out == all;
    var rest := size - |out|;
    if rest < cs {
      assert (all + d[s[k]])[..size] == all + d[s[k]][..rest];
    } else {
      assert d[s[k]][..cs] == d[s[k]];
    }
  }

  lemma ReadDone(d: seq<Cluster>, f: seq<nat>, g: Geometry, s: seq<nat>, size: nat, k: nat, cluster: nat,
      out: seq<byte>)
    requires Reading(d, g.Size(), s, size, k, cluster, out) && !(2 <= cluster < EOC && |out| < size)
    ensures (forall i :: 0 <= i < |s| ==> s[i] < |d|) && |out| == size && out == FirstBytes(d, g, s, size)
  {
    hide ChainBytes;
    BytesPrefix(d, s, k);
    var part, all := ChainBytes(d, s[..k]), ChainBytes(d, s);
    assert |out| == size;
    assert out == all[..size];
  }

  lemma {:induction false} BytesPrefix(d: seq<Cluster>, s: seq<nat>, k: nat)
    requires k <= |s| && forall i :: 0 <= i < |s| ==> s[i] < |d|
    ensures |ChainBytes(d, s[..k])| <= |ChainBytes(d, s)|
            && ChainBytes(d, s)[..|ChainBytes(d, s[..k])|] == ChainBytes(d, s[..k])
    decreases |s|
  {
    if k == |s| {
      assert s[..k] == s;
    } else {
      var init := s[..|s| - 1];
      assert init[..k] == s[..k];
      BytesPrefix(d, init, k);
    }
  }

  /** w is v with the clusters of s, free in v, linked into a chain; nothing in use is touched. */
  ghost predicate Taking(v: FatVol, w: FatVol, max: nat, s: seq<nat>) {
    w.root == v.root && TakenFrom(v.fat, max, s) && LinkedAs(v.fat, w.fat, s) && SparesUsed(v, w)
  }

  /** Nothing was taken after all. */
  ghost predicate Untaken(v: FatVol, w: FatVol) {
    w.root == v.root && w.fat == v.fat && SparesUsed(v, w)
  }

  lemma TakeStart(v: FatVol, g: Geometry)
    requires Shaped(v, g)
    ensures Taking(v, v, g.max, [])
  {
  }

  lemma TakeStep(v: FatVol, u: FatVol, g: Geometry, s: seq<nat>, c: nat)
    requires Taking(v, u, g.max, s) && 2 <= c < g.max && u.fat[c] == FREE && |u.data| == g.max
    ensures var f := u.fat[c := LAST];
            Taking(v, u.(fat := if s == [] then f else f[s[|s| - 1] := c], data := u.data[c := Zeros(g.Size())]), g.max,
              s + [c])
    ensures s != [] ==> s[|s| - 1] < TABLE
  {
    hide LinkedAs;
    TakeOne(v, u, g.max, s, c);
  }

  lemma TakeUndo(v: FatVol, u: FatVol, max: nat, s: seq<nat>)
    requires Taking(v, u, max, s)
    ensures s == [] ==> Untaken(v, u)
    ensures s != [] ==> Untaken(v, u.(fat := FreeFrom(u.fat, s[0])))
  {
    hide FreeFrom;
    if s != [] {
      TakenIsChain(v.fat, u.fat, max, s);
      assert s[..0] == [];
      FreeFromChain(u.fat, u.fat, max, s, 0);
      LinkThenFree(v.fat, u.fat, FreeFrom(u.fat, s[0]), s);
    } else {
      assert u.fat == v.fat;
    }
  }

  lemma TakeEnd(v: FatVol, u: FatVol, max: nat, s: seq<nat>)
    requires Taking(v, u, max, s) && s != []
    ensures s[|s| - 1] < TABLE && |u.fat| == TABLE && u.fat[s[|s| - 1] := LAST] == u.fat
  {
    assert LinkAt(u.fat, s, |s| - 1);
  }

  /** s names distinct clusters that were free. */
  ghost predicate TakenFrom(f: seq<nat>, max: nat, s: seq<nat>) {
    && |f| == TABLE && max <= EOC && Distinct(s)
    && forall i: nat :: i < |s| ==> 2 <= s[i] < max && f[s[i]] == FREE
  }

  /** Clusters in use are not written. */
  ghost predicate SparesUsed(v: FatVol, w: FatVol) {
    && |v.fat| == TABLE && |w.data| == |v.data| <= TABLE
    && forall c: nat :: c < |v.data| && v.fat[c] != FREE ==> w.data[c] == v.data[c]
  }

  lemma TakenIsChain(f0: seq<nat>, f: seq<nat>, max: nat, s: seq<nat>)
    requires TakenFrom(f0, max, s) && LinkedAs(f0, f, s) && s != []
    ensures Chain(f, max, s)
  {
    LinkedIsChain(f0, f, max, s);
  }

  /** One more free cluster at the end of the chain. */
  lemma TakeOne(v: FatVol, u: FatVol, max: nat, s: seq<nat>, c: nat)
    requires TakenFrom(v.fat, max, s) && LinkedAs(v.fat, u.fat, s) && 2 <= c < max && u.fat[c] == FREE
    ensures c !in s && v.fat[c] == FREE && TakenFrom(v.fat, max, s + [c])
    ensures var f := u.fat[c := LAST];
            LinkedAs(v.fat, if s == [] then f else f[s[|s| - 1] := c], s + [c])
  {
    assert c !in s by {
      forall i: nat | i < |s| ensures s[i] != c {
        assert LinkAt(u.fat, s, i);
      }
    }
    var f := if s == [] then u.fat[c := LAST] else u.fat[c := LAST][s[|s| - 1] := c];
    var t := s + [c];
    forall i: nat | i < |t| ensures LinkAt(f, t, i) {
      if i + 1 < |s| {
        assert LinkAt(u.fat, s, i) && s[i] != s[|s| - 1] && s[i] in s;
      }
    }
    forall x: nat | x < TABLE && x !in t ensures f[x] == v.fat[x] {
      assert x !in s;
      assert s != [] ==> s[|s| - 1] in s;
    }
  }

  lemma FreeFromNothing(f: seq<nat>, c: nat)
    requires |f| == TABLE && !(2 <= c < EOC)
    ensures FreeFrom(f, c) == f
  {
  }
}
