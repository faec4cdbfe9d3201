/** Disk blocks of inodes (kernel/fs.c): the free bitmap, the block map of an inode, and who owns what. */
module BlockMap {
  const BSIZE := 1024
  const BPB := 8192         // bits in a bitmap block
  const NDIRECT := 12
  const NINDIRECT := 256
  const MAXFILE := 268

  // ---- bits of the bitmap

  /** 1 << k */
  function Mask(k: nat): (m: bv8)
    requires k < 8
  {
    if k == 0 then 1 else if k == 1 then 2 else if k == 2 then 4 else if k == 3 then 8
    else if k == 4 then 16 else if k == 5 then 32 else if k == 6 then 64 else 128
  }

  /** byte & m */
  predicate Has(x: bv8, k: nat)
    requires k < 8
  {
    x & Mask(k) != 0
  }

  /** byte | m, or byte & ~m */
  function Put(x: bv8, k: nat, on: bool): (y: bv8)
    requires k < 8
  {
    if on then x | Mask(k) else x & !Mask(k)
  }

  lemma PutHas(x: bv8, k: nat, on: bool, j: nat)
    requires k < 8 && j < 8
    ensures Has(Put(x, k, on), j) <==> if j == k then on else Has(x, j)
  {
  }

  function ByteOf(bi: nat): (i: nat)
    requires bi < BPB
    ensures i < BSIZE
  {
    bi / 8
  }

  function BitOf(bi: nat): (k: nat) ensures k < 8 { bi % 8 }

  /** Bit bi of one bitmap block. */
  predicate BitSet(bytes: seq<bv8>, bi: nat)
    requires |bytes| == BSIZE && bi < BPB
  {
    Has(bytes[ByteOf(bi)], BitOf(bi))
  }

  function WithBit(bytes: seq<bv8>, bi: nat, on: bool): (r: seq<bv8>)
    requires |bytes| == BSIZE && bi < BPB
    ensures |r| == BSIZE
  {
    bytes[ByteOf(bi) := Put(bytes[ByteOf(bi)], BitOf(bi), on)]
  }

  lemma SamePlace(bi: nat, bj: nat)
    requires bi < BPB && bj < BPB
    ensures ByteOf(bi) == ByteOf(bj) && BitOf(bi) == BitOf(bj) <==> bi == bj
  {
  }

  lemma BitChanged(bytes: seq<bv8>, bi: nat, on: bool, bj: nat)
    requires |bytes| == BSIZE && bi < BPB && bj < BPB
    ensures BitSet(WithBit(bytes, bi, on), bj) <==> if bj == bi then on else BitSet(bytes, bj)
  {
    SamePlace(bi, bj);
    hide Has, Put, ByteOf, BitOf;
    PutHas(bytes[ByteOf(bi)], BitOf(bi), on, BitOf(bj));
  }

  /** The bitmap blocks for a disk of `size` blocks. */
  ghost predicate BitmapOk(bitmap: seq<seq<bv8>>, size: nat) {
    |bitmap| * BPB >= size && forall k :: 0 <= k < |bitmap| ==> |bitmap[k]| == BSIZE
  }

  function BitBlock(b: nat): (k: nat) { b / BPB }

  function BitIndex(b: nat): (bi: nat) ensures bi < BPB { b % BPB }

  lemma InBitmap(bitmap: seq<seq<bv8>>, size: nat, b: nat)
    requires BitmapOk(bitmap, size) && b < size
    ensures BitBlock(b) < |bitmap| && |bitmap[BitBlock(b)]| == BSIZE
  {
  }

  /** Block b is marked used. */
  ghost predicate Used(bitmap: seq<seq<bv8>>, size: nat, b: nat)
    requires BitmapOk(bitmap, size) && b < size
  {
    InBitmap(bitmap, size, b);
    BitSet(bitmap[BitBlock(b)], BitIndex(b))
  }

  ghost function Mark(bitmap: seq<seq<bv8>>, size: nat, b: nat, on: bool): (r: seq<seq<bv8>>)
    requires BitmapOk(bitmap, size) && b < size
  {
    InBitmap(bitmap, size, b);
    bitmap[BitBlock(b) := WithBit(bitmap[BitBlock(b)], BitIndex(b), on)]
  }

  lemma SameBit(b: nat, c: nat)
    ensures BitBlock(b) == BitBlock(c) && BitIndex(b) == BitIndex(c) <==> b == c
  {
  }

  lemma Marked(bitmap: seq<seq<bv8>>, size: nat, b: nat, on: bool, c: nat)
    requires BitmapOk(bitmap, size) && b < size && c < size
    ensures BitmapOk(Mark(bitmap, size, b, on), size)
    ensures Used(Mark(bitmap, size, b, on), size, c) <==> if c == b then on else Used(bitmap, size, c)
  {
    InBitmap(bitmap, size, b);
    InBitmap(bitmap, size, c);
    SameBit(b, c);
    hide WithBit, BitSet, BitBlock, BitIndex;
    BitChanged(bitmap[BitBlock(b)], BitIndex(b), on, BitIndex(c));
  }
}
