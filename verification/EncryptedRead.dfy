/**
 Reading an object in ciphertext and decrypting it outside the store
 (`GetObjectBlksInfo`, `GetObjectBlkKey`, `ReadBlk` in bfss_api/bfss_api.cpp).
 */
module EncryptedRead {
  import opened Layout
  import opened Cipher
  import opened CacheSpec
  import opened StorageSpec
  import R = CacheRuns

  /** One stretch of an object that lies in one block and has one key. */
  datatype Segment = Segment(dataOff: int, blkSize: int, blkIndex: int)

  ghost predicate InOneBlock(g: Segment, begin: int) {
    && 0 < g.blkSize && Aligned(g.blkSize) && Aligned(g.dataOff)
    && BeginPos(g.blkIndex, 0) <= begin + g.dataOff
    && begin + g.dataOff + g.blkSize <= BeginPos(g.blkIndex + 1, 0)
  }

  /** The segments tile [0, end) in order, each inside one block. */
  ghost predicate Tiles(segs: seq<Segment>, begin: int, end: int) {
    && (forall k :: 0 <= k < |segs| ==> InOneBlock(segs[k], begin))
    && (forall k {:trigger EndOf(segs, k)} :: 0 <= k < |segs| ==> segs[k].dataOff == EndOf(segs, k))
    && EndOf(segs, |segs|) == end
  }

  ghost function EndOf(segs: seq<Segment>, k: int): int
    requires k <= |segs|
  {
    if k <= 0 then 0 else segs[k - 1].dataOff + segs[k - 1].blkSize
  }

  /** The loop of `GetObjectBlksInfo`. */
  method GetObjectBlksInfo(beginIndex: int, beginOffset: int, size: int) returns (segs: seq<Segment>)
    requires Canonical(beginIndex, beginOffset) && 0 <= size
    ensures Tiles(segs, BeginPos(beginIndex, beginOffset), DataAlign(size))
  {
    ghost var begin := BeginPos(beginIndex, beginOffset);
    var rest, index, offset, dataOffset := DataAlign(size), beginIndex, beginOffset, 0;
    segs := [];
    while rest > 0
      invariant 0 <= rest && rest + dataOffset == DataAlign(size)
      invariant Aligned(rest) && Aligned(dataOffset) && Canonical(index, offset)
      invariant rest > 0 ==> BeginPos(index, offset) == begin + dataOffset
      invariant Tiles(segs, begin, dataOffset)
      decreases rest
    {
      var blkSize := Min(BLK_SIZE - offset, rest);
      SegmentFits(index, offset, rest, blkSize);
      AlignedSum(dataOffset, blkSize);
      AddSegment(segs, begin, Segment(dataOffset, blkSize, index));
      segs := segs + [Segment(dataOffset, blkSize, index)];
      dataOffset := dataOffset + blkSize;
      rest := rest - blkSize;
      offset := 0;
      index := index + 1;
    }
  }

  lemma SegmentFits(index: int, offset: int, rest: int, blkSize: int)
    requires Canonical(index, offset) && 0 < rest && Aligned(rest) && blkSize == Min(BLK_SIZE - offset, rest)
    ensures 0 < blkSize <= rest && Aligned(blkSize) && Aligned(rest - blkSize) && Canonical(index + 1, 0)
    ensures BeginPos(index, 0) <= BeginPos(index, offset)
    ensures BeginPos(index, offset) + blkSize <= BeginPos(index + 1, 0)
    ensures blkSize < rest ==> BeginPos(index, offset) + blkSize == BeginPos(index + 1, 0)
  {
    NextBlockStart(index);
  }

  lemma NextBlockStart(index: int)
    ensures BeginPos(index + 1, 0) == BeginPos(index, 0) + BLK_SIZE
  {
  }

  lemma AddSegment(segs: seq<Segment>, begin: int, g: Segment)
    requires Tiles(segs, begin, g.dataOff) && InOneBlock(g, begin)
    ensures Tiles(segs + [g], begin, g.dataOff + g.blkSize)
  {
    forall k | 0 <= k <= |segs| ensures (segs + [g])[k].dataOff == EndOf(segs + [g], k) {
      assert EndOf(segs + [g], k) == EndOf(segs, k);
    }
  }

  /** `GetObjectBlkKey` names the block of the segment an offset falls in. */
  lemma KeyBlockOfOffset(beginIndex: int, beginOffset: int, g: Segment, offset: int)
    requires Canonical(beginIndex, beginOffset) && InOneBlock(g, BeginPos(beginIndex, beginOffset))
    requires 0 <= offset && g.dataOff <= offset < g.dataOff + g.blkSize
    ensures BlkIndex(beginIndex, beginOffset, PosAlign(offset)) == g.blkIndex
  {
    var begin := BeginPos(beginIndex, beginOffset);
    ByteAddress(beginIndex, beginOffset, offset);
    InsideBlock(BlkIndex(beginIndex, beginOffset, PosAlign(offset)), OffsetOf(begin + offset), g.blkIndex,
                begin + offset);
  }

  lemma InsideBlock(q: int, r: int, b: int, pos: int)
    requires BeginPos(q, r) == pos && 0 <= r < BLK_SIZE
    requires BeginPos(b, 0) <= pos < BeginPos(b + 1, 0)
    ensures q == b
  {
    NextBlockStart(b);
    PositionUnique(q, r, b, pos - BeginPos(b, 0));
  }

  predicate InBounds(g: Segment, end: int) {
    0 <= g.dataOff && 0 <= g.blkSize && g.dataOff + g.blkSize <= end && Aligned(g.blkSize)
  }

  function DecryptOne(c: Ecb, g: Segment, text: seq<Byte>): (r: seq<Byte>)
    requires InBounds(g, |text|)
    ensures |r| == g.blkSize
  {
    Decrypt(c, g.blkIndex, text[g.dataOff..g.dataOff + g.blkSize])
  }

  /** Decrypts the first `k` segments of an object's ciphertext, each under its block's key. */
  function DecryptSegments(c: Ecb, segs: seq<Segment>, text: seq<Byte>, k: nat): seq<Byte>
    requires k <= |segs| && forall i :: 0 <= i < |segs| ==> InBounds(segs[i], |text|)
  {
    if k == 0 then [] else DecryptSegments(c, segs, text, k - 1) + DecryptOne(c, segs[k - 1], text)
  }

  /** One segment of the volume's ciphertext decrypts to the volume's plaintext. */
  lemma SegmentDecrypts(c: Ecb, p: seq<Block>, b: nat, offset: nat, size: nat)
    requires b < |p| && Aligned(offset) && Aligned(size) && offset + size <= BLK_SIZE
    ensures var pos := BeginPos(b, offset);
            && 0 <= pos && pos + size <= |Flat(p)| && pos + size <= |Flat(EncryptAll(c, p, 0))|
            && Decrypt(c, b, Flat(EncryptAll(c, p, 0))[pos..pos + size]) == Flat(p)[pos..pos + size]
  {
    SliceOfVolume(p, b, offset, size);
    SliceOfVolume(EncryptAll(c, p, 0), b, offset, size);
    UnitsDecrypt(c, b, p[b], offset, size);
  }

  lemma UnitsDecrypt(c: Ecb, b: nat, block: Block, offset: nat, size: nat)
    requires Aligned(offset) && Aligned(size) && offset + size <= BLK_SIZE
    ensures Decrypt(c, b, EncBlock(c, b, block)[offset..offset + size]) == block[offset..offset + size]
  {
    AlignedSum(offset, size);
    SliceCommutes(c, b, block, offset, offset + size);
    Inverse(c, b, block[offset..offset + size]);
  }

  lemma {:induction false} EndOfGrows(segs: seq<Segment>, begin: int, end: int, j: nat, k: nat)
    requires Tiles(segs, begin, end) && j <= k <= |segs|
    ensures EndOf(segs, j) <= EndOf(segs, k)
  {
    if j < k {
      EndOfGrows(segs, begin, end, j, k - 1);
      assert InOneBlock(segs[k - 1], begin);
    }
  }

  lemma SegmentBounds(segs: seq<Segment>, begin: int, end: int, k: nat)
    requires Tiles(segs, begin, end) && k < |segs|
    ensures InBounds(segs[k], end)
  {
    assert InOneBlock(segs[k], begin);
    EndOfGrows(segs, begin, end, 0, k);
    EndOfGrows(segs, begin, end, k + 1, |segs|);
  }

  ghost predicate Readable(p: seq<Block>, c: Ecb, begin: int, end: int) {
    0 <= begin && 0 <= end && Aligned(begin) && begin + end <= |Flat(p)| && |Flat(EncryptAll(c, p, 0))| == |Flat(p)|
  }

  /** The object's ciphertext, as `ReadBlk` returns it. */
  ghost function CipherText(c: Ecb, p: seq<Block>, begin: int, end: int): (r: seq<Byte>)
    requires Readable(p, c, begin, end)
    ensures |r| == end
  {
    Flat(EncryptAll(c, p, 0))[begin..begin + end]
  }

  ghost function PlainText(p: seq<Block>, begin: int, end: int): (r: seq<Byte>)
    requires 0 <= begin && 0 <= end && begin + end <= |Flat(p)|
    ensures |r| == end
  {
    Flat(p)[begin..begin + end]
  }

  ghost predicate Opens(c: Ecb, text: seq<Byte>, plain: seq<Byte>, g: Segment) {
    InBounds(g, |text|) && |plain| == |text| && DecryptOne(c, g, text) == plain[g.dataOff..g.dataOff + g.blkSize]
  }

  /** Splitting the aligned ciphertext by the segment list and decrypting segment by segment
      gives the plaintext. */
  lemma {:induction false} SegmentsConcat(c: Ecb, segs: seq<Segment>, text: seq<Byte>, plain: seq<Byte>, k: nat)
    requires k <= |segs| && |plain| == |text|
    requires forall i :: 0 <= i < |segs| ==> InBounds(segs[i], |text|)
    requires forall i :: 0 <= i < |segs| ==> Opens(c, text, plain, segs[i])
    requires forall i {:trigger EndOf(segs, i)} :: 0 <= i < |segs| ==> segs[i].dataOff == EndOf(segs, i)
    ensures 0 <= EndOf(segs, k) <= |plain|
    ensures DecryptSegments(c, segs, text, k) == plain[..EndOf(segs, k)]
  {
    if k > 0 {
      SegmentsConcat(c, segs, text, plain, k - 1);
      var g := segs[k - 1];
      assert Opens(c, text, plain, g) && g.dataOff == EndOf(segs, k - 1);
      PrefixGrows(plain, g.dataOff, g.blkSize);
    }
  }

  lemma PrefixGrows(v: seq<Byte>, at: nat, size: nat)
    requires at + size <= |v|
    ensures v[..at] + v[at..at + size] == v[..at + size]
  {
  }

  lemma SegmentOpens(c: Ecb, p: seq<Block>, begin: int, end: int, g: Segment)
    requires InOneBlock(g, begin) && Readable(p, c, begin, end) && InBounds(g, end)
    ensures Opens(c, CipherText(c, p, begin, end), PlainText(p, begin, end), g)
  {
    var pos := begin + g.dataOff;
    var offset := pos - BeginPos(g.blkIndex, 0);
    NextBlockStart(g.blkIndex);
    AlignedSum(begin, g.dataOff);
    AlignedPos(g.blkIndex, offset);
    NonNegative(g.blkIndex, offset);
    InVolume(p, g.blkIndex, offset, g.blkSize);
    SegmentDecrypts(c, p, g.blkIndex, offset, g.blkSize);
    SliceOfSlice(Flat(EncryptAll(c, p, 0)), begin, end, g.dataOff, g.blkSize);
    SliceOfSlice(Flat(p), begin, end, g.dataOff, g.blkSize);
  }

  lemma SliceOfSlice(v: seq<Byte>, begin: nat, end: nat, at: nat, size: nat)
    requires begin + end <= |v| && at + size <= end
    ensures v[begin..begin + end][at..at + size] == v[begin + at..begin + at + size]
  {
    var x, y := v[begin..begin + end][at..at + size], v[begin + at..begin + at + size];
    assert |x| == |y| && forall i :: 0 <= i < size ==> x[i] == y[i];
  }

  /** End to end: the client-side decryption of the whole aligned object is the object. */
  lemma EncryptedReadIsRead(c: Ecb, p: seq<Block>, segs: seq<Segment>, begin: int, size: nat)
    requires Tiles(segs, begin, DataAlign(size)) && Readable(p, c, begin, DataAlign(size)) && 0 < size
    ensures var text := CipherText(c, p, begin, DataAlign(size));
            && (forall i :: 0 <= i < |segs| ==> InBounds(segs[i], |text|))
            && |DecryptSegments(c, segs, text, |segs|)| >= size
            && DecryptSegments(c, segs, text, |segs|)[..size] == Flat(p)[begin..begin + size]
  {
    var end := DataAlign(size);
    AlignUp(size);
    var text, plain := CipherText(c, p, begin, end), PlainText(p, begin, end);
    forall i | 0 <= i < |segs| ensures Opens(c, text, plain, segs[i]) {
      assert InOneBlock(segs[i], begin);
      SegmentBounds(segs, begin, end, i);
      SegmentOpens(c, p, begin, end, segs[i]);
    }
    SegmentsConcat(c, segs, text, plain, |segs|);
    SliceOfSlice(Flat(p), begin, end, 0, size);
  }
}
