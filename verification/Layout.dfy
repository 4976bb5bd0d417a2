/**
 Address arithmetic of the block store (utils/bfss_utils.h).

 A byte of a volume has a linear position; the store names it by a block index and
 an offset inside the block, that is, in base `BLK_SIZE` notation. Object extents
 begin and end on 16-byte boundaries.
 */
module Layout {

  type Byte = bv8
  type Block = s: seq<Byte> | |s| == BLK_SIZE witness ZeroBlock()

  type BlockSize = n: int | n >= 16 && n % 16 == 0 witness 16

  const ALIGN := 16
  const OBJECT_HEAD_LEN := 16
  const CHIP_MAX_SIZE := 1024 * 1024
  const OBJECT_MAX_SIZE := 1524 * 1024 * 1024

  /** The block size stays symbolic: any positive multiple of the alignment. */
  const BLK_SIZE: BlockSize

  function ZeroBlock(): (z: seq<Byte>)
    ensures |z| == BLK_SIZE && forall i :: 0 <= i < |z| ==> z[i] == 0
  {
    seq(BLK_SIZE, _ => 0)
  }

  function Min(a: int, b: int): int { if a < b then a else b }

  // ----- C operators ------------------------------------------------------------

  /** Remainder of a C division: truncated towards zero, so it has the sign of `x`. */
  function TruncMod(x: int, d: int): int
    requires d > 0
  {
    if x >= 0 then x % d else -(-x % d)
  }

  function TruncDiv(x: int, d: int): int
    requires d > 0
  {
    if x >= 0 then x / d else -(-x / d)
  }

  // ----- alignment and addresses --------------------------------------------------

  /** A size an object may have. */
  predicate SizeOk(size: int) { 0 < size <= OBJECT_MAX_SIZE }

  function DataAlign(size: int): int { (size + 15) / ALIGN * ALIGN }

  function PosAlign(pos: int): int { pos / ALIGN * ALIGN }

  predicate Aligned(x: int) { x % ALIGN == 0 }

  function PosAlignX(size: int): int {
    var append := TruncMod(size, BLK_SIZE);
    if append < 0 then size + -(BLK_SIZE + append) else size - append
  }

  function BeginPos(index: int, offset: int): int { index * BLK_SIZE + offset }

  function BlkIndex(index: int, offset: int, size: int): int {
    index + TruncDiv(PosAlignX(offset + size), BLK_SIZE)
  }

  function BlkEndOffset(index: int, offset: int, size: int): int {
    OffsetOf(BeginPos(index, offset) + size)
  }

  function OffsetOf(pos: int): int { pos - PosAlignX(pos) }

  function IndexOf(pos: int): int { TruncDiv(PosAlignX(pos), BLK_SIZE) }

  predicate Canonical(index: int, offset: int) {
    0 <= index && 0 <= offset < BLK_SIZE && Aligned(offset)
  }

  // ----- lemmas --------------------------------------------------------------------

  lemma MulMonotone(a: int, b: int, d: int)
    requires 0 <= d
    ensures a <= b ==> a * d <= b * d
  {
  }

  lemma DivModUnique(q: int, r: int, d: int)
    requires 0 <= r < d
    ensures (q * d + r) / d == q && (q * d + r) % d == r
  {
    var x := q * d + r;
    MulMonotone(q + 1, x / d, d);
    MulMonotone(x / d + 1, q, d);
    assert x == x / d * d + x % d;
  }

  /** `pos_align_x` rounds down to a block boundary, also below zero. */
  lemma PosAlignXOf(x: int, q: int, r: int)
    requires x == q * BLK_SIZE + r && 0 <= r < BLK_SIZE
    ensures PosAlignX(x) == q * BLK_SIZE && TruncDiv(q * BLK_SIZE, BLK_SIZE) == q
  {
    TruncDivExact(q);
    if x >= 0 {
      DivModUnique(q, r, BLK_SIZE);
    } else if r == 0 {
      NegMul(q);
      DivModUnique(-q, 0, BLK_SIZE);
    } else {
      NegMul(q);
      assert -x == (-q - 1) * BLK_SIZE + (BLK_SIZE - r);
      DivModUnique(-q - 1, BLK_SIZE - r, BLK_SIZE);
    }
  }

  lemma NegMul(q: int)
    ensures -q * BLK_SIZE == -(q * BLK_SIZE)
    ensures (-q - 1) * BLK_SIZE == -(q * BLK_SIZE) - BLK_SIZE
  {
  }

  lemma TruncDivExact(q: int)
    ensures TruncDiv(q * BLK_SIZE, BLK_SIZE) == q
  {
    NegMul(q);
    DivModUnique(q, 0, BLK_SIZE);
    DivModUnique(-q, 0, BLK_SIZE);
  }

  lemma TruncRange(x: int)
    requires 0 <= x
    ensures 0 <= TruncDiv(x, BLK_SIZE) && 0 <= TruncMod(x, BLK_SIZE) < BLK_SIZE
  {
    var q, r := Split(x);
    DivModUnique(q, r, BLK_SIZE);
    MulMonotone(q, -1, BLK_SIZE);
  }

  /** A position decomposes into (index, offset) in exactly one way. */
  lemma PositionUnique(i: int, o: int, j: int, p: int)
    requires 0 <= o < BLK_SIZE && 0 <= p < BLK_SIZE
    requires BeginPos(i, o) == BeginPos(j, p)
    ensures i == j && o == p
  {
    DivModUnique(i, o, BLK_SIZE);
    DivModUnique(j, p, BLK_SIZE);
  }

  lemma Split(x: int) returns (q: int, r: int)
    ensures x == q * BLK_SIZE + r && 0 <= r < BLK_SIZE
  {
    q, r := x / BLK_SIZE, x % BLK_SIZE;
  }

  /** `get_blk_index` with `get_blk_end_offset` is the exact quotient and remainder of
      begin + size, for negative sizes too. */
  lemma PositionAlgebra(index: int, offset: int, size: int)
    ensures var q, r := BlkIndex(index, offset, size), BlkEndOffset(index, offset, size);
            BeginPos(q, r) == BeginPos(index, offset) + size && 0 <= r < BLK_SIZE
  {
    var q, r := Split(offset + size);
    PosAlignXOf(offset + size, q, r);
    assert BeginPos(index, offset) + size == (index + q) * BLK_SIZE + r;
    PosAlignXOf(BeginPos(index, offset) + size, index + q, r);
  }

  lemma PositionOfPos(pos: int)
    ensures BeginPos(IndexOf(pos), OffsetOf(pos)) == pos && 0 <= OffsetOf(pos) < BLK_SIZE
  {
    var q, r := Split(pos);
    PosAlignXOf(pos, q, r);
  }

  lemma CanonicalPos(pos: int)
    requires 0 <= pos && Aligned(pos)
    ensures Canonical(IndexOf(pos), OffsetOf(pos))
    ensures BeginPos(IndexOf(pos), OffsetOf(pos)) == pos
  {
    PositionOfPos(pos);
    IsCanonical(IndexOf(pos), OffsetOf(pos));
  }

  lemma IsCanonical(index: int, offset: int)
    requires 0 <= offset < BLK_SIZE
    ensures Canonical(index, offset) <==> 0 <= BeginPos(index, offset) && Aligned(BeginPos(index, offset))
  {
    AlignedPos(index, offset);
    NonNegative(index, offset);
  }

  lemma AlignedBlocks(k: int)
    ensures Aligned(k * BLK_SIZE)
  {
    var m := BLK_SIZE / ALIGN;
    assert k * BLK_SIZE == k * m * ALIGN;
    DivModUnique(k * m, 0, ALIGN);
  }

  lemma AlignedPos(index: int, offset: int)
    ensures Aligned(BeginPos(index, offset)) <==> Aligned(offset)
  {
    AlignedBlocks(index);
  }

  lemma NonNegative(index: int, offset: int)
    requires 0 <= offset < BLK_SIZE
    ensures 0 <= BeginPos(index, offset) <==> 0 <= index
  {
    MulMonotone(0, index, BLK_SIZE);
    MulMonotone(index, -1, BLK_SIZE);
  }

  /** Object byte `offset` lives at position begin + offset, although `Write` and `read`
      compute the block from the offset rounded down and the in-block offset from the
      exact one. */
  lemma ByteAddress(index: int, begin: int, offset: int)
    requires Canonical(index, begin) && 0 <= offset
    ensures var pos := BeginPos(index, begin) + offset;
            var blkIndex, blkOffset := BlkIndex(index, begin, PosAlign(offset)), OffsetOf(pos);
            && BeginPos(blkIndex, blkOffset) == pos
            && 0 <= blkIndex && 0 <= blkOffset < BLK_SIZE
  {
    var pos := BeginPos(index, begin) + offset;
    var q, r := BlkIndex(index, begin, PosAlign(offset)), BlkEndOffset(index, begin, PosAlign(offset));
    PositionAlgebra(index, begin, PosAlign(offset));
    PositionOfPos(pos);
    SameBlock(index, begin, offset, q, r, IndexOf(pos), OffsetOf(pos));
  }

  lemma SameBlock(index: int, begin: int, offset: int, q: int, r: int, i: int, o: int)
    requires Canonical(index, begin) && 0 <= offset
    requires BeginPos(q, r) == BeginPos(index, begin) + PosAlign(offset) && 0 <= r < BLK_SIZE
    requires BeginPos(i, o) == BeginPos(index, begin) + offset && 0 <= o < BLK_SIZE
    ensures 0 <= q == i
  {
    var delta := offset - PosAlign(offset);
    IsCanonical(index, begin);
    CanonicalSum(index, begin, PosAlign(offset), q, r);
    UnitInBlock(r);
    PositionUnique(i, o, q, r + delta);
  }

  /** A 16-byte unit that starts inside a block ends inside it. */
  lemma UnitInBlock(r: int)
    requires Aligned(r) && r < BLK_SIZE
    ensures r + ALIGN <= BLK_SIZE
  {
  }

  /** `data_align` is the least multiple of the unit that is not below. */
  lemma AlignUp(size: int)
    ensures Aligned(DataAlign(size)) && size <= DataAlign(size) < size + ALIGN
  {
  }

  /** Shrinking an object: the early return is taken exactly when no aligned unit is
      given up, and otherwise the kept prefix and the freed suffix are the old extent. */
  lemma ResizeSplitsExtent(index: int, begin: int, oldSize: int, newSize: int)
    requires Canonical(index, begin) && 0 < newSize < oldSize
    ensures DataAlign(newSize) >= oldSize <==> DataAlign(newSize) == DataAlign(oldSize)
    ensures DataAlign(newSize) < oldSize ==>
              var pos := BeginPos(index, begin);
              var newPos, oldPos := DataAlign(newSize), DataAlign(oldSize);
              var cutIndex, cut := BlkIndex(index, begin, newPos), BlkEndOffset(index, begin, newPos);
              var endIndex, end := BlkIndex(index, begin, oldPos), BlkEndOffset(index, begin, oldPos);
              && Canonical(cutIndex, cut) && Canonical(endIndex, end)
              && pos < BeginPos(cutIndex, cut) == pos + newPos < BeginPos(endIndex, end) == pos + oldPos
  {
    AlignUp(newSize);
    AlignUp(oldSize);
    NonNegative(index, begin);
    CanonicalEnd(index, begin, DataAlign(newSize));
    CanonicalEnd(index, begin, DataAlign(oldSize));
  }

  /** The end of an aligned extent is canonical. */
  lemma CanonicalEnd(index: int, begin: int, size: int)
    requires Canonical(index, begin) && Aligned(size) && 0 <= BeginPos(index, begin) + size
    ensures Canonical(BlkIndex(index, begin, size), BlkEndOffset(index, begin, size))
    ensures BeginPos(BlkIndex(index, begin, size), BlkEndOffset(index, begin, size)) == BeginPos(index, begin) + size
  {
    var q, r := BlkIndex(index, begin, size), BlkEndOffset(index, begin, size);
    PositionAlgebra(index, begin, size);
    CanonicalSum(index, begin, size, q, r);
  }

  lemma CanonicalSum(index: int, begin: int, size: int, q: int, r: int)
    requires Canonical(index, begin) && Aligned(size) && 0 <= BeginPos(index, begin) + size
    requires BeginPos(q, r) == BeginPos(index, begin) + size && 0 <= r < BLK_SIZE
    ensures Canonical(q, r)
  {
    IsCanonical(index, begin);
    IsCanonical(q, r);
    AlignedSum(BeginPos(index, begin), size);
  }

  lemma AlignedSum(x: int, y: int)
    requires Aligned(x) && Aligned(y)
    ensures Aligned(x + y)
  {
  }
}
