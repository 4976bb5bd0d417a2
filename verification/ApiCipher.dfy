/** Reading an object in ciphertext through the API server, and decrypting it outside the store. */
module ApiCipher {
  import opened Layout
  import opened Ownership
  import opened Cipher
  import opened CacheSpec
  import opened ObjectSpec
  import opened ObjectProof
  import opened ObjectRuns
  import opened ApiStore
  import E = EncryptedRead
  import R = RegmSpec
  import S = StorageSpec

  // ----- a volume in ciphertext ------------------------------------------------------------------------

  lemma Blocks(n: int)
    requires 0 < n
    ensures 0 <= BeginPos(n - 1, 0) == BeginPos(n, 0) - BLK_SIZE
  {
    MulMonotone(0, n - 1, BLK_SIZE);
    E.NextBlockStart(n - 1);
  }

  /** The `n` blocks a volume consists of. */
  function BlocksOf(v: seq<Byte>, n: nat): (p: seq<Block>)
    requires |v| == BeginPos(n, 0)
    ensures |p| == n && S.Flat(p) == v
    decreases n
  {
    if n == 0 then []
    else
      Blocks(n);
      var rest := BlocksOf(v[BLK_SIZE..], n - 1);
      FlatOne(v, rest);
      [v[..BLK_SIZE]] + rest
  }

  lemma FlatOne(v: seq<Byte>, rest: seq<Block>)
    requires BLK_SIZE <= |v| && S.Flat(rest) == v[BLK_SIZE..]
    ensures S.Flat([v[..BLK_SIZE]] + rest) == v
  {
    assert ([v[..BLK_SIZE]] + rest)[1..] == rest;
  }

  /** What the node returns of the volume without decrypting it. */
  function CipherOf(c: Ecb, v: seq<Byte>, n: nat): (r: seq<Byte>)
    requires |v| == BeginPos(n, 0)
    ensures |r| == |v|
  {
    var q := S.EncryptAll(c, BlocksOf(v, n), 0);
    S.FlatLength(q);
    S.Flat(q)
  }

  /** Every unit of a volume in ciphertext is its plaintext under the key of the block it lies in. */
  lemma CipherUnit(c: Ecb, v: seq<Byte>, n: nat, at: int)
    requires |v| == BeginPos(n, 0) && 0 <= at && Aligned(at) && at + 16 <= |v|
    ensures CipherOf(c, v, n)[at..at + 16] == c.enc(at / BLK_SIZE, v[at..at + 16])
  {
    var p := BlocksOf(v, n);
    var b, o := Split(at);
    DivModUnique(b, o, BLK_SIZE);
    AlignedPos(b, o);
    NonNegative(b, o);
    UnitInBlock(o);
    S.InVolume(p, b, o, 16);
    S.SliceOfVolume(p, b, o, 16);
    S.SliceOfVolume(S.EncryptAll(c, p, 0), b, o, 16);
    BlockUnit(c, b, p[b], o);
  }

  lemma BlockUnit(c: Ecb, b: nat, block: Block, o: nat)
    requires Aligned(o) && o + 16 <= BLK_SIZE
    ensures EncBlock(c, b, block)[o..o + 16] == c.enc(b, block[o..o + 16])
  {
    EncryptsUnits(c, b, block, o / 16);
  }

  /** `text` is the volume from `at` on, every 16-byte unit encrypted under the key of its own block. */
  ghost predicate UnitsEncrypted(text: seq<Byte>, c: Ecb, v: seq<Byte>, at: int) {
    0 <= at && at + |text| <= |v|
    && forall k: nat :: k % 16 == 0 && k + 16 <= |text| ==>
         text[k..k + 16] == c.enc((at + k) / BLK_SIZE, v[at + k..at + k + 16])
  }

  lemma PieceEncrypted(c: Ecb, v: seq<Byte>, n: nat, at: int, count: int)
    requires |v| == BeginPos(n, 0) && 0 <= at && Aligned(at) && 0 <= count && at + count <= |v|
    ensures UnitsEncrypted(CipherOf(c, v, n)[at..at + count], c, v, at)
  {
    var text := CipherOf(c, v, n)[at..at + count];
    forall k: nat | k % 16 == 0 && k + 16 <= |text|
      ensures text[k..k + 16] == c.enc((at + k) / BLK_SIZE, v[at + k..at + k + 16])
    {
      PieceUnit(c, v, n, at, count, k);
    }
  }

  lemma PieceUnit(c: Ecb, v: seq<Byte>, n: nat, at: int, count: int, k: nat)
    requires |v| == BeginPos(n, 0) && 0 <= at && Aligned(at) && at + count <= |v| && k + 16 <= count && Aligned(k)
    ensures CipherOf(c, v, n)[at..at + count][k..k + 16] == c.enc((at + k) / BLK_SIZE, v[at + k..at + k + 16])
  {
    AlignedSum(at, k);
    CipherUnit(c, v, n, at + k);
    E.SliceOfSlice(CipherOf(c, v, n), at, count, k, 16);
  }

  /** A storage node that presents the blocks `p` returns just that. */
  lemma {:induction false} BlocksFlat(p: seq<Block>)
    ensures |S.Flat(p)| == BeginPos(|p|, 0) && BlocksOf(S.Flat(p), |p|) == p
  {
    S.FlatLength(p);
    if p != [] {
      BlocksFlat(p[1..]);
      assert S.Flat(p)[..BLK_SIZE] == p[0] && S.Flat(p)[BLK_SIZE..] == S.Flat(p[1..]);
    }
  }

  // ----- an object in ciphertext -----------------------------------------------------------------------

  /** The object's place lies on the volume, up to the end of its last 16-byte unit. */
  predicate Fits(v: seq<Byte>, n: nat, p: Place, size: int) {
    |v| == BeginPos(n, 0) && 0 < size && 0 <= Pos(p) && Pos(p) + DataAlign(size) <= |v|
  }

  /** The units of an object in ciphertext. */
  function CipherText(c: Ecb, v: seq<Byte>, n: nat, p: Place, size: int): (r: seq<Byte>)
    requires Fits(v, n, p, size)
    ensures |r| == DataAlign(size)
  {
    AlignUp(size);
    CipherOf(c, v, n)[Pos(p)..Pos(p) + DataAlign(size)]
  }

  /** Decrypting the object's units segment by segment gives the bytes the volume has there. */
  lemma SegmentsDecrypt(c: Ecb, v: seq<Byte>, n: nat, p: Place, size: int, segs: seq<E.Segment>)
    requires PlaceOk(p) && Fits(v, n, p, size) && E.Tiles(segs, Pos(p), DataAlign(size))
    ensures var text := CipherText(c, v, n, p, size);
            && (forall i :: 0 <= i < |segs| ==> E.InBounds(segs[i], |text|))
            && |E.DecryptSegments(c, segs, text, |segs|)| >= size
            && 0 <= Pos(p) && Pos(p) + size <= |v|
            && E.DecryptSegments(c, segs, text, |segs|)[..size] == v[Pos(p)..Pos(p) + size]
  {
    AlignUp(size);
    IsCanonical(p.beginIndex, p.beginOffset);
    S.FlatLength(S.EncryptAll(c, BlocksOf(v, n), 0));
    E.EncryptedReadIsRead(c, BlocksOf(v, n), segs, Pos(p), size);
  }

  /** The volume of the document's object has its units. */
  predicate Stored(d: Doc, vols: map<int, R.Volume>, nodes: map<int, S.SnState>) {
    && PlaceOk(d.place) && SizeOk(d.size) && d.place.vol in vols && d.place.vol in nodes
    && 0 <= vols[d.place.vol].blkCount
    && Fits(nodes[d.place.vol].v, vols[d.place.vol].blkCount, d.place, d.size)
  }

  lemma FinishedFits(s: Sys, oid: Oid, r: R.Sys, nodes: map<int, S.SnState>)
    requires Inv(s) && Finished(s, oid) && Backed(s, r, nodes)
    ensures Stored(s.objects[oid], r.vols, nodes)
  {
    var d := s.objects[oid];
    assert OidOk(s, oid);
    AlignUp(d.size);
    OwnedIsStored(s, OfRecord(KeyOf(d)), r, nodes);
    RecordVolume(s, KeyOf(d), r);
  }

  lemma RecordVolume(s: Sys, key: Key, r: R.Sys)
    requires Inv(s) && key in s.hashes && R.Inv(r) && r.held == s.held
    ensures var vol := s.hashes[key].place.vol;
            vol in r.vols && 0 <= r.vols[vol].blkCount
            && r.vols[vol].curPosition + r.vols[vol].reserved == BeginPos(r.vols[vol].blkCount, 0)
  {
    assert RecordOk(key, s.hashes[key]);
    AlignUp(key.size);
    RecordHeld(s, key);
    var c := (s.hashes[key].place.vol, Pos(s.hashes[key].place));
    assert c in Cells(ExtentOf(s.hashes[key].place, key.size));
    assert Below(c, R.Cur(r.vols));
    assert R.VolumeOk(r.vols[c.0]);
    NotNegative(r.vols[c.0].blkCount);
  }

  lemma NotNegative(n: int)
    requires 0 <= n * BLK_SIZE
    ensures 0 <= n
  {
    if n < 0 { MulMonotone(n, -1, BLK_SIZE); }
  }

  /** The units of the document's object in ciphertext. */
  function Ciphered(d: Doc, vols: map<int, R.Volume>, nodes: map<int, S.SnState>, cipher: int -> Ecb): (r: seq<Byte>)
    requires Stored(d, vols, nodes)
    ensures |r| == DataAlign(d.size)
  {
    CipherText(cipher(d.place.vol), nodes[d.place.vol].v, vols[d.place.vol].blkCount, d.place, d.size)
  }

  /** Decrypting the object's units segment by segment gives its bytes. */
  ghost predicate Decrypts(d: Doc, vols: map<int, R.Volume>, nodes: map<int, S.SnState>, cipher: int -> Ecb,
                           segs: seq<E.Segment>, bytes: Cell -> Byte) {
    && Stored(d, vols, nodes)
    && var text := Ciphered(d, vols, nodes, cipher);
       && (forall i :: 0 <= i < |segs| ==> E.InBounds(segs[i], |text|))
       && |E.DecryptSegments(cipher(d.place.vol), segs, text, |segs|)| >= d.size
       && E.DecryptSegments(cipher(d.place.vol), segs, text, |segs|)[..d.size] == Content(bytes, d.place, d.size)
  }

  /** End to end: decrypting, segment by segment, what `ReadBlk` returns of a finished object gives
      what `Read` returns of it. */
  lemma DecryptsToContent(s: Sys, oid: Oid, r: R.Sys, nodes: map<int, S.SnState>, cipher: int -> Ecb,
                          segs: seq<E.Segment>)
    requires Inv(s) && Finished(s, oid) && Backed(s, r, nodes)
    requires var d := s.objects[oid]; E.Tiles(segs, Pos(d.place), DataAlign(d.size))
    ensures Decrypts(s.objects[oid], r.vols, nodes, cipher, segs, s.bytes)
  {
    var d := s.objects[oid];
    FinishedFits(s, oid, r, nodes);
    AlignUp(d.size);
    var v := nodes[d.place.vol].v;
    SegmentsDecrypt(cipher(d.place.vol), v, r.vols[d.place.vol].blkCount, d.place, d.size, segs);
    StretchIsStored(nodes, s.bytes, d.place.vol, Pos(d.place), d.size);
  }

  /** A piece of an object's units, as the node is asked for it. */
  lemma CipherPiece(c: Ecb, v: seq<Byte>, n: nat, p: Place, size: int, offset: int, count: int, at: int)
    requires PlaceOk(p) && Fits(v, n, p, size) && 0 <= offset && 0 <= count && offset + count <= DataAlign(size)
    requires at == Pos(Address(p, offset))
    ensures 0 <= at && at + count <= |v|
    ensures CipherOf(c, v, n)[at..at + count] == CipherText(c, v, n, p, size)[offset..offset + count]
  {
    AddressIs(p, offset);
    E.SliceOfSlice(CipherOf(c, v, n), Pos(p), DataAlign(size), offset, count);
  }

  /** An aligned offset beyond an object's end is beyond its units, too. */
  lemma BeyondUnits(size: int, offset: int)
    requires 0 < size && Aligned(offset)
    ensures size <= offset <==> DataAlign(size) <= offset
  {
    AlignUp(size);
  }

  /** The handler of `ReadBlk`: a piece of the units, cut at their end. */
  method ReadUnits(c: Cached, d: Doc, vols: map<int, R.Volume>, nodes: map<int, S.SnState>, cipher: int -> Ecb,
                   size: int, offset: int)
    returns (r: ReadReply)
    requires Stored(d, vols, nodes) && c.place == d.place && c.size == d.size
    requires 0 <= offset < c.size && 0 <= size <= CHIP_MAX_SIZE && Aligned(size) && Aligned(offset)
    ensures r == Excerpt(Ciphered(d, vols, nodes, cipher), size, offset)
  {
    PieceSize(c.size, size, offset);
    var dataSize := Min(DataAlign(c.size) - offset, DataAlign(size));
    var blkIndex, blkOffset := Locate(c.place, offset);
    if dataSize < 1 { return ReadParamError; }
    var pos, vol := BeginPos(blkIndex, blkOffset), c.place.vol;
    CipherPiece(cipher(vol), nodes[vol].v, vols[vol].blkCount, c.place, c.size, offset, dataSize, pos);
    var text := CipherOf(cipher(vol), nodes[vol].v, vols[vol].blkCount);
    r := ReadData(text[pos..pos + dataSize], offset + size > DataAlign(c.size));
  }

  /** The reply has the object's 16-byte units from `offset` on, each encrypted under the key of its own
      block, as many as asked for and there are. */
  ghost predicate ReadsUnits(r: ReadReply, d: Doc, nodes: map<int, S.SnState>, cipher: int -> Ecb, size: int,
                             offset: int) {
    if 0 <= offset < d.size && 0 < size <= CHIP_MAX_SIZE then
      && r.ReadData? && d.place.vol in nodes
      && |r.data| == (if offset + size > DataAlign(d.size) then DataAlign(d.size) - offset else size)
      && UnitsEncrypted(r.data, cipher(d.place.vol), nodes[d.place.vol].v, Pos(d.place) + offset)
    else r == ReadParamError
  }

  lemma ExcerptEncrypted(d: Doc, vols: map<int, R.Volume>, nodes: map<int, S.SnState>, cipher: int -> Ecb, size: int,
                         offset: int)
    requires Stored(d, vols, nodes) && 0 <= offset && size <= CHIP_MAX_SIZE && Aligned(size) && Aligned(offset)
    ensures ReadsUnits(Excerpt(Ciphered(d, vols, nodes, cipher), size, offset), d, nodes, cipher, size, offset)
  {
    var text, vol := Ciphered(d, vols, nodes, cipher), d.place.vol;
    BeyondUnits(d.size, offset);
    ExcerptIs(text, size, offset);
    if offset < d.size && 0 < size {
      var count := if offset + size > |text| then |text| - offset else size;
      ExcerptOfVolume(cipher(vol), nodes[vol].v, vols[vol].blkCount, d.place, d.size, offset, count);
      ExcerptData(text, size, offset, count);
    }
  }

  lemma ExcerptData(content: seq<Byte>, size: int, offset: int, count: int)
    requires 0 <= offset < |content| && 0 < size <= CHIP_MAX_SIZE
    requires count == if offset + size > |content| then |content| - offset else size
    ensures Excerpt(content, size, offset).data == content[offset..offset + count]
  {
  }

  lemma ExcerptOfVolume(c: Ecb, v: seq<Byte>, n: nat, p: Place, size: int, offset: int, count: int)
    requires PlaceOk(p) && Fits(v, n, p, size) && 0 <= offset && 0 <= count && offset + count <= DataAlign(size)
             && Aligned(offset)
    ensures UnitsEncrypted(CipherText(c, v, n, p, size)[offset..offset + count], c, v, Pos(p) + offset)
  {
    IsCanonical(p.beginIndex, p.beginOffset);
    PieceOfPiece(c, v, n, Pos(p), DataAlign(size), offset, count);
  }

  lemma PieceOfPiece(c: Ecb, v: seq<Byte>, n: nat, at: int, total: int, offset: int, count: int)
    requires |v| == BeginPos(n, 0) && 0 <= at && Aligned(at) && 0 <= total && at + total <= |v|
    requires 0 <= offset && Aligned(offset) && 0 <= count && offset + count <= total
    ensures UnitsEncrypted(CipherOf(c, v, n)[at..at + total][offset..offset + count], c, v, at + offset)
  {
    AlignedSum(at, offset);
    E.SliceOfSlice(CipherOf(c, v, n), at, total, offset, count);
    PieceEncrypted(c, v, n, at + offset, count);
  }

  /** What is asked of the node is what is asked for, as far as there is any. */
  lemma PieceSize(total: int, size: int, offset: int)
    requires 0 <= offset < total && 0 <= size && Aligned(size) && Aligned(offset)
    ensures DataAlign(size) == size && offset < DataAlign(total)
  {
    AlignUp(total);
    AlignUp(size);
  }

  lemma KeyOfSegment(p: Place, offset: int)
    requires PlaceOk(p) && 0 <= offset
    ensures forall g :: E.InOneBlock(g, Pos(p)) && g.dataOff <= offset < g.dataOff + g.blkSize ==>
              BlkIndex(p.beginIndex, p.beginOffset, PosAlign(offset)) == g.blkIndex
  {
    forall g | E.InOneBlock(g, Pos(p)) && g.dataOff <= offset < g.dataOff + g.blkSize
      ensures BlkIndex(p.beginIndex, p.beginOffset, PosAlign(offset)) == g.blkIndex
    {
      E.KeyBlockOfOffset(p.beginIndex, p.beginOffset, g, offset);
    }
  }
}
