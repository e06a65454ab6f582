/** The allocation bitmaps of fs/ext2/alloc.c: bytes, one bit a block or inode. */
module Ext2Bitmap {

  type Bitmap = seq<bv8>

  /** 1 << k */
  function Mask(k: nat): bv8
    requires k < 8
  {
    match k
    case 0 => 0x01 case 1 => 0x02 case 2 => 0x04 case 3 => 0x08
    case 4 => 0x10 case 5 => 0x20 case 6 => 0x40 case _ => 0x80
  }

  predicate Has(x: bv8, k: nat)
    requires k < 8
  {
    x & Mask(k) != 0
  }

  function With(x: bv8, k: nat): bv8
    requires k < 8
  {
    x | Mask(k)
  }

  function Without(x: bv8, k: nat): bv8
    requires k < 8
  {
    x & !Mask(k)
  }

  lemma MaskSet(x: bv8, k: nat, j: nat)
    requires k < 8 && j < 8
    ensures Has(With(x, k), j) == (j == k || Has(x, j))
    ensures Has(Without(x, k), j) == (j != k && Has(x, j))
  {
    assert Mask(k) & Mask(j) == if j == k then Mask(k) else 0;
    assert (x | Mask(k)) & Mask(j) == (x & Mask(j)) | (Mask(k) & Mask(j));
    assert (x & !Mask(k)) & Mask(j) == (x & Mask(j)) & !Mask(k);
  }

  predicate Bit(m: Bitmap, i: nat)
    requires i < 8 * |m|
  {
    Has(m[i / 8], i % 8)
  }

  function SetBit(m: Bitmap, i: nat): Bitmap
    requires i < 8 * |m|
  {
    m[i / 8 := With(m[i / 8], i % 8)]
  }

  function ClearBit(m: Bitmap, i: nat): Bitmap
    requires i < 8 * |m|
  {
    m[i / 8 := Without(m[i / 8], i % 8)]
  }

  /** Setting or clearing one bit changes that bit and no other. */
  lemma BitUpdate(m: Bitmap, i: nat, j: nat)
    requires i < 8 * |m| && j < 8 * |m|
    ensures Bit(SetBit(m, i), j) == (i == j || Bit(m, j))
    ensures Bit(ClearBit(m, i), j) == (i != j && Bit(m, j))
  {
    hide Has, With, Without;
    assert i == j <==> i / 8 == j / 8 && i % 8 == j % 8;
    if i / 8 == j / 8 {
      MaskSet(m[i / 8], i % 8, j % 8);
    }
  }

  /** The number of clear bits among the first n. */
  function ClearCount(m: Bitmap, n: nat): (c: nat)
    requires n <= 8 * |m|
    ensures c <= n
  {
    if n == 0 then 0 else ClearCount(m, n - 1) + if Bit(m, n - 1) then 0 else 1
  }

  lemma {:induction false} ClearCountUpdate(m: Bitmap, i: nat, n: nat)
    requires i < 8 * |m| && n <= 8 * |m|
    ensures ClearCount(SetBit(m, i), n) == ClearCount(m, n) - if i < n && !Bit(m, i) then 1 else 0
    ensures ClearCount(ClearBit(m, i), n) == ClearCount(m, n) + if i < n && Bit(m, i) then 1 else 0
  {
    hide Bit, SetBit, ClearBit;
    if n != 0 {
      ClearCountUpdate(m, i, n - 1);
      BitUpdate(m, i, n - 1);
    }
  }
}
