/** The ranges the object layer asks the allocator for and gives back to it. */
module Extents {
  import opened Layout
  import opened Ownership
  import opened ObjectSpec
  import R = RegmSpec

  /** What `add_blk_chip` is called with for the storage of `size` bytes at `p`. */
  function WholeBlks(p: Place, size: int): R.Blks {
    R.Blks(p.vol, p.beginIndex, p.beginOffset, BlkIndex(p.beginIndex, p.beginOffset, DataAlign(size)),
           BlkEndOffset(p.beginIndex, p.beginOffset, DataAlign(size)))
  }

  /** ... and for the units after the first `newSize` bytes of an object at `p`. */
  function RestBlks(p: Place, newSize: int, oldSize: int): R.Blks {
    R.Blks(p.vol, BlkIndex(p.beginIndex, p.beginOffset, DataAlign(newSize)),
           BlkEndOffset(p.beginIndex, p.beginOffset, DataAlign(newSize)),
           BlkIndex(p.beginIndex, p.beginOffset, DataAlign(oldSize)),
           BlkEndOffset(p.beginIndex, p.beginOffset, DataAlign(oldSize)))
  }

  /** The place of a new object in the range the allocator has granted. */
  function PlaceIn(b: R.Blks): Place { Place(b.vol, b.beginIndex, b.beginOffset) }

  lemma RestExtent(p: Place, newSize: int, oldSize: int)
    requires PlaceOk(p) && 0 < newSize && DataAlign(newSize) < DataAlign(oldSize)
    ensures R.BlksOk(RestBlks(p, newSize, oldSize))
    ensures R.Range(RestBlks(p, newSize, oldSize)) == Rest(p, newSize, oldSize)
  {
    AlignUp(newSize);
    AlignUp(oldSize);
    NonNegative(p.beginIndex, p.beginOffset);
    CanonicalEnd(p.beginIndex, p.beginOffset, DataAlign(newSize));
    CanonicalEnd(p.beginIndex, p.beginOffset, DataAlign(oldSize));
  }

  lemma WholeExtent(p: Place, size: int)
    requires PlaceOk(p) && SizeOk(size)
    ensures R.BlksOk(WholeBlks(p, size)) && R.Range(WholeBlks(p, size)) == ExtentOf(p, size)
  {
    AlignUp(size);
    NonNegative(p.beginIndex, p.beginOffset);
    CanonicalEnd(p.beginIndex, p.beginOffset, DataAlign(size));
  }

  lemma GrantedExtent(b: R.Blks, size: int)
    requires R.BlksOk(b) && R.Hi(b) == R.Lo(b) + DataAlign(size)
    ensures PlaceOk(PlaceIn(b)) && R.Range(b) == ExtentOf(PlaceIn(b), size)
  {
  }
}
