/**
 The block device of a storage node (bfss_sn/blkdev.cpp): two reserved blocks hold a mark
 and the bitmap of written blocks, the others hold data. Blocks never written read as zeros.
 */
module Device {
  import opened Layout
  import opened CacheSpec

  const RESERVED := 2
  const MARK: seq<Byte> := [66, 70, 83, 83, 45, 83, 78, 0]

  function BitBytes(blkCount: nat): nat { DataAlign(blkCount / 8) }

  /** `1 << k`. */
  function Bit(k: nat): (v: Byte)
    requires k < 8
    ensures v == 1 << k
  {
    if k == 0 then 1 else if k == 1 then 2 else if k == 2 then 4 else if k == 3 then 8
    else if k == 4 then 16 else if k == 5 then 32 else if k == 6 then 64 else 128
  }

  predicate HasBit(v: Byte, k: nat)
    requires k < 8
  {
    v & Bit(k) == Bit(k)
  }

  predicate IsWrited(bits: seq<Byte>, b: nat)
    requires b / 8 < |bits|
  {
    HasBit(bits[b / 8], b % 8)
  }

  function SetWrited(bits: seq<Byte>, b: nat): (r: seq<Byte>)
    requires b / 8 < |bits|
    ensures |r| == |bits|
  {
    bits[b / 8 := bits[b / 8] | Bit(b % 8)]
  }

  lemma BitsAreIndependent(v: Byte, i: nat, j: nat)
    requires i < 8 && j < 8
    ensures HasBit(v | Bit(i), j) <==> i == j || HasBit(v, j)
  {
  }

  lemma OneBit(v: Byte, k: nat)
    requires k < 8
    ensures HasBit(v, k) <==> v & ((1 as Byte) << k) != 0
  {
  }

  lemma MarkAt(bits: seq<Byte>, q: nat, i: nat, p: nat, j: nat)
    requires q < |bits| && p < |bits| && i < 8 && j < 8
    ensures HasBit(bits[q := bits[q] | Bit(i)][p], j) <==> (q == p && i == j) || HasBit(bits[p], j)
  {
    if q == p { BitsAreIndependent(bits[q], i, j); }
  }

  /** Marking a block marks that block and no other. */
  lemma SetWritedMarksOne(bits: seq<Byte>, b: nat, a: nat)
    requires b / 8 < |bits| && a / 8 < |bits|
    ensures IsWrited(SetWrited(bits, b), a) <==> a == b || IsWrited(bits, a)
  {
    SameBit(a, b);
    MarkAt(bits, b / 8, b % 8, a / 8, a % 8);
  }

  lemma SameBit(a: nat, b: nat)
    ensures a == b <==> b / 8 == a / 8 && b % 8 == a % 8
  {
  }

  /** The bitmap is sized from the block count rounded down to bytes first; it covers every
      data block except when the count leaves 3 to 7 blocks past a multiple of 128. */
  lemma BitmapCovers(blkCount: nat)
    requires RESERVED <= blkCount
    ensures (forall b: nat :: b < blkCount - RESERVED ==> b / 8 < BitBytes(blkCount))
            <==> blkCount % 128 < 3 || 7 < blkCount % 128
  {
    var q, r := blkCount / 128, blkCount % 128;
    assert blkCount / 8 == 16 * q + r / 8;
    assert (r / 8 + 15) / 16 == if r < 8 then 0 else 1;
    assert BitBytes(blkCount) == 16 * q + if r < 8 then 0 else 16;
    if 3 <= r <= 7 {
      var b := blkCount - RESERVED - 1;
      assert b / 8 == 16 * q;
    }
  }

  // ----- the medium --------------------------------------------------------------------

  function Start(b: int): int { (b + RESERVED) * BLK_SIZE }

  lemma StartOf(b: int, count: int)
    ensures Start(b) + BLK_SIZE == Start(b + 1)
    ensures b < count ==> Start(b) + BLK_SIZE <= Start(count)
    ensures 0 <= b ==> RESERVED * BLK_SIZE <= Start(b)
  {
    MulMonotone(b + 1 + RESERVED, count + RESERVED, BLK_SIZE);
    MulMonotone(RESERVED, b + RESERVED, BLK_SIZE);
  }

  function PWrite(disk: seq<Byte>, at: nat, data: seq<Byte>): (r: seq<Byte>)
    requires at + |data| <= |disk|
    ensures |r| == |disk|
  {
    disk[..at] + data + disk[at + |data|..]
  }

  /** What the device stores for block `b`. */
  function StoredAt(disk: seq<Byte>, bits: seq<Byte>, b: nat): Stored
    requires b / 8 < |bits| && Start(b) + BLK_SIZE <= |disk| && 0 <= Start(b)
  {
    if IsWrited(bits, b) then Written(disk[Start(b)..Start(b) + BLK_SIZE]) else Unwritten
  }

  /** The bitmap as it is saved behind the mark. */
  ghost predicate SavedBitmap(disk: seq<Byte>, bits: seq<Byte>) {
    |MARK| + |bits| <= |disk| && disk[|MARK|..|MARK| + |bits|] == bits
  }

  lemma PWriteSlices(disk: seq<Byte>, at: nat, data: seq<Byte>, lo: nat, hi: nat)
    requires at + |data| <= |disk| && lo <= hi <= |disk|
    ensures PWrite(disk, at, data)[at..at + |data|] == data
    ensures hi <= at || at + |data| <= lo ==> PWrite(disk, at, data)[lo..hi] == disk[lo..hi]
  {
  }

  /** `after` has `data` at `at` and is otherwise as before. */
  ghost predicate Overlaid(before: seq<Byte>, after: seq<Byte>, at: int, data: seq<Byte>) {
    0 <= at && at + |data| <= |before| && after == before[..at] + data + before[at + |data|..]
  }

  /** Bit `b % 8` of byte `b / 8` is set and all others are as before. */
  ghost predicate Marked(before: seq<Byte>, after: seq<Byte>, b: nat) {
    b / 8 < |before| && after == before[b / 8 := before[b / 8] | ((1 as Byte) << (b % 8))]
  }

  lemma MarkedIs(bits: seq<Byte>, b: nat)
    requires b / 8 < |bits|
    ensures Marked(bits, SetWrited(bits, b), b)
  {
  }

  ghost predicate Fits(disk: seq<Byte>, bits: seq<Byte>, blocks: nat) {
    && |bits| < RESERVED * BLK_SIZE - |MARK|
    && Start(blocks) <= |disk|
    && (forall b: nat :: b < blocks ==> b / 8 < |bits|)
  }

  ghost function Contents(disk: seq<Byte>, bits: seq<Byte>, blocks: nat): (r: seq<Stored>)
    requires Fits(disk, bits, blocks)
    ensures |r| == blocks
    ensures forall b: nat :: b < blocks ==>
              0 <= Start(b) && Start(b) + BLK_SIZE <= |disk| && r[b] == StoredAt(disk, bits, b)
  {
    forall b: nat | b < blocks ensures 0 <= Start(b) && Start(b) + BLK_SIZE <= |disk| { StartOf(b, blocks); }
    seq(blocks, b requires 0 <= b < blocks => StoredAt(disk, bits, b))
  }

  /** Writing one block never changes another block's bytes or mark. */
  lemma WriteChangesOneBlock(disk: seq<Byte>, bits: seq<Byte>, blocks: nat, b: nat, data: Block)
    requires Fits(disk, bits, blocks) && b < blocks
    ensures 0 <= Start(b) && Start(b) + BLK_SIZE <= |disk|
    ensures Contents(PWrite(disk, Start(b), data), SetWrited(bits, b), blocks)
            == Contents(disk, bits, blocks)[b := Written(data)]
  {
    StartOf(b, blocks);
    var disk', bits' := PWrite(disk, Start(b), data), SetWrited(bits, b);
    var old', new' := Contents(disk, bits, blocks), Contents(disk', bits', blocks);
    forall a: nat | a < blocks ensures new'[a] == old'[b := Written(data)][a] {
      SetWritedMarksOne(bits, b, a);
      StartOf(a, b);
      StartOf(b, a);
      StartOf(a, blocks);
      PWriteSlices(disk, Start(b), data, Start(a), Start(a) + BLK_SIZE);
    }
  }

  /** Saving the bitmap leaves every data block alone. */
  lemma ReservedIsApart(disk: seq<Byte>, bits: seq<Byte>, blocks: nat, at: nat, saved: seq<Byte>)
    requires Fits(disk, bits, blocks) && at + |saved| <= |MARK| + |bits| <= |disk|
    ensures Contents(PWrite(disk, at, saved), bits, blocks) == Contents(disk, bits, blocks)
  {
    var disk' := PWrite(disk, at, saved);
    var old', new' := Contents(disk, bits, blocks), Contents(disk', bits, blocks);
    forall a: nat | a < blocks ensures new'[a] == old'[a] {
      StartOf(a, blocks);
      PWriteSlices(disk, at, saved, Start(a), Start(a) + BLK_SIZE);
    }
  }

  class BlkDevice {
    var disk: seq<Byte>
    const blkCount: nat
    const bits: array<Byte>

    ghost predicate Valid()
      reads this, bits
    {
      && RESERVED <= blkCount
      && blkCount * BLK_SIZE <= |disk|
      && bits.Length == BitBytes(blkCount)
      && Fits(disk, bits[..], blkCount - RESERVED)
    }

    ghost function Blocks(): (r: seq<Stored>)
      requires Valid()
      reads this, bits
      ensures |r| == blkCount - RESERVED
    {
      Contents(disk, bits[..], blkCount - RESERVED)
    }

    /** `open` on a device of known size: a fresh bitmap unless the mark is found. */
    constructor (image: seq<Byte>, count: nat)
      requires RESERVED <= count && count * BLK_SIZE <= |image|
      requires BitBytes(count) < RESERVED * BLK_SIZE - |MARK|
      requires count % 128 < 3 || 7 < count % 128
      ensures Valid() && fresh(bits) && blkCount == count
      ensures MARK <= image ==> disk == image && SavedBitmap(image, bits[..])
      ensures !(MARK <= image) ==> Overlaid(image, disk, 0, MARK)
      ensures !(MARK <= image) ==> Blocks() == seq(count - RESERVED, _ => Unwritten)
    {
      BitmapCovers(count);
      MulMonotone(RESERVED, count, BLK_SIZE);
      disk := if MARK <= image then image else PWrite(image, 0, MARK);
      blkCount := count;
      bits := new Byte[BitBytes(count)](i requires 0 <= i =>
        if MARK <= image && |MARK| + i < |image| then image[|MARK| + i] else 0);
      new;
      if MARK <= image {
        assert SavedBitmap(image, bits[..]);
      }
    }

    method ReadBlk(b: nat) returns (ok: bool, buf: Block)
      requires Valid() && b / 8 < bits.Length
      ensures ok <==> b <= blkCount && (!IsWrited(bits[..], b) || Start(b) + BLK_SIZE <= |disk|)
      ensures b < blkCount - RESERVED ==>
                ok && buf == StoredData(Blocks()[b])
      ensures ok ==>
                var at, mark := (b + 2) * BLK_SIZE, (1 as Byte) << (b % 8);
                if bits[b / 8] & mark == 0 then buf == ZeroBlock()
                else 0 <= at && at + BLK_SIZE <= |disk| && buf == disk[at..at + BLK_SIZE]
    {
      StartOf(b, blkCount - RESERVED);
      buf := ZeroBlock();
      if b > blkCount { return false, buf; }
      OneBit(bits[b / 8], b % 8);
      if !HasBit(bits[b / 8], b % 8) { return true, buf; }
      var offset := (b + RESERVED) * BLK_SIZE;
      if offset + BLK_SIZE <= |disk| {
        return true, disk[offset..offset + BLK_SIZE];
      }
      ok := false;
    }

    method WriteBlk(b: nat, buf: Block) returns (ok: bool)
      requires Valid() && b / 8 < bits.Length
      modifies this`disk, bits
      ensures Valid()
      ensures ok <==> b <= blkCount && Start(b) + BLK_SIZE <= |disk|
      ensures b < blkCount - RESERVED ==> ok && Blocks() == old(Blocks())[b := Written(buf)]
      ensures !ok ==> disk == old(disk)
      ensures ok ==> Overlaid(old(disk), disk, (b + 2) * BLK_SIZE, buf) && Marked(old(bits[..]), bits[..], b)
    {
      if b > blkCount { return false; }
      StartOf(b, blkCount - RESERVED);
      bits[b / 8] := bits[b / 8] | Bit(b % 8);
      assert bits[..] == SetWrited(old(bits[..]), b);
      var offset := (b + RESERVED) * BLK_SIZE;
      ok := offset + BLK_SIZE <= |disk|;
      if ok { disk := PWrite(disk, offset, buf); }
      MarkedIs(old(bits[..]), b);
      if b < blkCount - RESERVED {
        WriteChangesOneBlock(old(disk), old(bits[..]), blkCount - RESERVED, b, buf);
      }
    }

    /** `close` saves the bitmap behind the mark. */
    method Close()
      requires Valid() && MARK <= disk
      modifies this`disk
      ensures Valid() && MARK <= disk && |disk| == old(|disk|) && Blocks() == old(Blocks())
      ensures SavedBitmap(disk, bits[..])
      ensures Overlaid(old(disk), disk, 8, bits[..])
    {
      var saved := bits[..];
      disk := PWrite(disk, |MARK|, saved);
      PWriteSlices(old(disk), |MARK|, saved, 0, |MARK|);
      ReservedIsApart(old(disk), saved, blkCount - RESERVED, |MARK|, saved);
    }
  }

  /** A device that is closed and opened again stores what it stored. */
  method Reopen(d: BlkDevice) returns (e: BlkDevice)
    requires d.Valid() && MARK <= d.disk
    requires d.blkCount % 128 < 3 || 7 < d.blkCount % 128
    modifies d`disk
    ensures e.Valid() && e.Blocks() == old(d.Blocks())
  {
    d.Close();
    e := new BlkDevice(d.disk, d.blkCount);
  }
}
