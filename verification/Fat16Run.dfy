/**
 * Whole runs of the FAT16 driver (fs/fat16.c:679-831): from a formatted volume on,
 * every sequence of creates, writes, unlinks and renames keeps the copies of the
 * table equal, the chains disjoint and end-marked, and the names unique.
 */
module Fat16Run {
  import opened Bytes
  import opened Fat16Table
  import opened Fat16Volume
  import opened Fat16Dir
  import opened Fat16Tree
  import opened Fat16Seek
  import opened Fat16Trace
  import opened Fat16Paths

  datatype Op =
    | CreateOp(t: TextPath, directory: bool)
    | WriteOp(t: TextPath, bytes: seq<byte>, append: bool)
    | UnlinkOp(t: TextPath, directory: bool)
    | RenameOp(t: TextPath, u: TextPath)
  {
    /** Usable names, writes below 2 GiB, and no rename of the root. */
    predicate Ok() {
      match this
      case CreateOp(t, _) => NamesOk(t)
      case WriteOp(t, bytes, _) => NamesOk(t) && |bytes| < 0x8000_0000
      case UnlinkOp(t, _) => NamesOk(t)
      case RenameOp(t, u) => t != [] && NamesOk(t) && NamesOk(u)
    }
  }

  /** A formatted volume is tidy. */
  lemma FormattedTidy(v: FatVol, g: Geometry)
    requires Shaped(v, g) && forall i :: 0 <= i < |v.root| ==> v.root[i] == Zeros(32)
    ensures Tidy(v, g, Cat(map[], {0}))
  {
    hide Good;
    FormattedGood(v, g);
    var cat := Cat(map[], {0});
    assert SlotsOf(v, g, cat, 0) == v.root;
    forall d: nat, i: nat ensures !Owned(v, g, cat, d, i) {
      if d == 0 && i < |v.root| {
        assert IsFree(v.root[i]);
      }
    }
  }

  /** Any run of the driver keeps the volume valid and tidy. */
  method Replay(vol: FatVolume, ops: seq<Op>, ghost cat: Cat) returns (ghost cat': Cat)
    requires vol.Valid() && Tidy(vol.View(), vol.geo, cat) && vol.geo.per <= 1024
    requires forall k :: 0 <= k < |ops| ==> ops[k].Ok()
    modifies vol
    ensures vol.Valid() && Tidy(vol.View(), vol.geo, cat')
  {
    hide Good, OneName, NamesOk;
    cat' := cat;
    for k := 0 to |ops|
      invariant vol.Valid() && Tidy(vol.View(), vol.geo, cat')
    {
      var ok;
      ghost var d, i, e;
      match ops[k] {
        case CreateOp(t, directory) =>
          ok, cat', d, i, e := Create(vol, t, directory, cat');
        case WriteOp(t, bytes, append) =>
          ok, cat', d, i := WriteFile(vol, t, bytes, append, cat');
        case UnlinkOp(t, directory) =>
          ok, cat' := Remove(vol, t, directory, cat');
        case RenameOp(t, u) =>
          ok, cat', d, i := Rename(vol, t, u, cat');
      }
    }
  }
}
