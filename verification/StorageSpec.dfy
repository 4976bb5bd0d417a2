/**
 A storage node seen from its clients (bfss_sn/bfss_sn.cpp): one contiguous volume of bytes,
 and an incremental hash per object under construction.

 The SHA-256 state (section 6.2 of FIPS 180-4) is modelled by the bytes fed to it so far.
 */
module StorageSpec {
  import opened Layout
  import opened Cipher
  import opened CacheSpec
  import opened CacheRuns

  // ----- the volume --------------------------------------------------------------------------

  function Flat(p: seq<Block>): seq<Byte> {
    if p == [] then [] else p[0] + Flat(p[1..])
  }

  function EncryptAll(c: Ecb, p: seq<Block>, first: nat): (q: seq<Block>)
    ensures |q| == |p| && forall i :: 0 <= i < |q| ==> q[i] == EncBlock(c, first + i, p[i])
  {
    seq(|p|, i requires 0 <= i < |p| => EncBlock(c, first + i, p[i]))
  }

  function Splice(v: seq<Byte>, at: nat, data: seq<Byte>): (r: seq<Byte>)
    requires at + |data| <= |v|
    ensures |r| == |v|
  {
    v[..at] + data + v[at + |data|..]
  }

  lemma {:induction false} FlatLength(p: seq<Block>)
    ensures |Flat(p)| == BeginPos(|p|, 0)
  {
    if p != [] { FlatLength(p[1..]); }
  }

  /** Block b of the array is the b-th block-sized stretch of the volume. */
  lemma {:induction false} FlatSplit(p: seq<Block>, b: nat)
    requires b < |p|
    ensures Flat(p) == Flat(p[..b]) + p[b] + Flat(p[b + 1..])
    ensures |Flat(p[..b])| == BeginPos(b, 0)
  {
    FlatLength(p[..b]);
    if b > 0 {
      FlatSplit(p[1..], b - 1);
      assert p[1..][..b - 1] == p[..b][1..];
      assert p[1..][b..] == p[b + 1..];
    }
  }

  /** Patching a block splices the volume. */
  lemma PatchSplices(p: seq<Block>, b: nat, offset: nat, data: seq<Byte>)
    requires b < |p| && offset + |data| <= BLK_SIZE
    ensures BeginPos(b, offset) + |data| <= |Flat(p)| && 0 <= BeginPos(b, offset)
    ensures Flat(p[b := Patch(p[b], offset, data)]) == Splice(Flat(p), BeginPos(b, offset), data)
  {
    var q := p[b := Patch(p[b], offset, data)];
    FlatSplit(p, b);
    FlatSplit(q, b);
    assert q[..b] == p[..b] && q[b + 1..] == p[b + 1..];
    SpliceMiddle(Flat(p[..b]), p[b], Flat(p[b + 1..]), offset, data);
  }

  lemma SpliceMiddle(v: seq<Byte>, x: Block, w: seq<Byte>, offset: nat, data: seq<Byte>)
    requires offset + |data| <= BLK_SIZE
    ensures Splice(v + x + w, |v| + offset, data) == v + Patch(x, offset, data) + w
  {
  }

  lemma SliceOfVolume(p: seq<Block>, b: nat, offset: nat, size: nat)
    requires b < |p| && offset + size <= BLK_SIZE
    ensures 0 <= BeginPos(b, offset) && BeginPos(b, offset) + size <= |Flat(p)|
    ensures Flat(p)[BeginPos(b, offset)..BeginPos(b, offset) + size] == p[b][offset..offset + size]
  {
    FlatSplit(p, b);
  }

  lemma SpliceSplice(v: seq<Byte>, at: nat, d: seq<Byte>, e: seq<Byte>)
    requires at + |d| + |e| <= |v|
    ensures Splice(Splice(v, at, d), at + |d|, e) == Splice(v, at, d + e)
  {
  }

  /** A position before the end of the volume names a block of it. */
  lemma InVolume(p: seq<Block>, b: nat, offset: nat, size: nat)
    requires 0 < size && BeginPos(b, offset) + size <= |Flat(p)|
    ensures b < |p|
  {
    FlatLength(p);
    MulMonotone(|p|, b, BLK_SIZE);
  }

  // ----- incremental hashing --------------------------------------------------------------------

  /** The object a write belongs to (`oid_blk_info`). */
  datatype Obi = Obi(beginIndex: int, beginOffset: int, size: int, flags: int)

  /** `fed` is the input of the running SHA-256, `hashed` the counter beside it. */
  datatype HashNode = HashNode(fed: seq<Byte>, hashed: int)

  type Key = (int, int)

  function KeyOf(o: Obi): Key { (o.beginIndex, o.beginOffset) }

  predicate ObiOk(o: Obi) {
    0 <= o.beginIndex && 0 <= o.beginOffset <= BLK_SIZE && o.size <= OBJECT_MAX_SIZE
  }

  function Begin(o: Obi): int { BeginPos(o.beginIndex, o.beginOffset) }

  function NodeFor(m: map<Key, HashNode>, k: Key): HashNode {
    if k in m then m[k] else HashNode([], 0)
  }

  predicate UpdateOk(index: int, offset: int, o: Obi) {
    ObiOk(o) && o.beginIndex <= index && BeginPos(index, offset) <= Begin(o) + o.size
  }

  /** The hash node of an object beginning at `begin` after `data` was written at `pos`: data that
      continues the hashed prefix is hashed, other data is not. */
  function NodeAfter(n: HashNode, begin: int, pos: int, data: seq<Byte>): HashNode {
    if begin + n.hashed == pos then HashNode(n.fed + data, n.hashed + |data|) else n
  }

  /** `update_hash`. */
  function UpdateHash(m: map<Key, HashNode>, pos: int, data: seq<Byte>, o: Obi): map<Key, HashNode> {
    m[KeyOf(o) := NodeAfter(NodeFor(m, KeyOf(o)), Begin(o), pos, data)]
  }

  function GetIndex(beginIndex: int, beginOffset: int, relative: int): int {
    beginIndex + TruncDiv(beginOffset + relative + 1, BLK_SIZE)
  }

  function GetOffset(beginOffset: int, relative: int): int {
    TruncMod(beginOffset + relative, BLK_SIZE)
  }

  function Restarted(n: HashNode, o: Obi): HashNode { if o.flags == 1 then n.(hashed := 0) else n }

  /** Where `complete_hash` starts reading. */
  function ResumePos(n: HashNode, o: Obi): int {
    var h := Restarted(n, o).hashed;
    BeginPos(GetIndex(o.beginIndex, o.beginOffset, h), GetOffset(o.beginOffset, h))
  }

  function Remaining(n: HashNode, o: Obi): int { o.size - Restarted(n, o).hashed }

  predicate CanComplete(v: seq<Byte>, n: HashNode, o: Obi) {
    Remaining(n, o) > 0 ==> 0 <= ResumePos(n, o) && ResumePos(n, o) + Remaining(n, o) <= |v|
  }

  /** The bytes `complete_hash` has digested at the end. */
  function DigestInput(v: seq<Byte>, n: HashNode, o: Obi): seq<Byte>
    requires CanComplete(v, n, o)
  {
    if Remaining(n, o) <= 0 then n.fed
    else n.fed + v[ResumePos(n, o)..ResumePos(n, o) + Remaining(n, o)]
  }

  /** The node holds exactly the hashed prefix of the object. */
  ghost predicate Prefix(v: seq<Byte>, n: HashNode, o: Obi) {
    && 0 <= n.hashed <= o.size && 0 <= Begin(o) && Begin(o) + o.size <= |v|
    && n.fed == v[Begin(o)..Begin(o) + n.hashed]
  }

  /** The end of the hashed prefix is the last byte of a block. */
  predicate AtBlockEnd(n: HashNode, o: Obi) {
    (o.beginOffset + Restarted(n, o).hashed) % BLK_SIZE == BLK_SIZE - 1
  }

  /** The "+ 1" in `get_index` sends the resumed read one block too far exactly when the
      prefix ends one byte before a block boundary. */
  lemma ResumeIsExact(n: HashNode, o: Obi)
    requires 0 <= o.beginOffset && 0 <= n.hashed
    ensures ResumePos(n, o) == Begin(o) + Restarted(n, o).hashed + (if AtBlockEnd(n, o) then BLK_SIZE else 0)
  {
    ResumeAt(o.beginIndex, o.beginOffset + Restarted(n, o).hashed);
  }

  lemma ResumeAt(index: int, x: int)
    requires 0 <= x
    ensures BeginPos(index + TruncDiv(x + 1, BLK_SIZE), TruncMod(x, BLK_SIZE))
            == BeginPos(index, x) + (if x % BLK_SIZE == BLK_SIZE - 1 then BLK_SIZE else 0)
  {
    var q, r := Split(x);
    DivModUnique(q, r, BLK_SIZE);
    NextDivides(x, q, r);
    ResumeParts(index, x, q, r);
  }

  lemma NextDivides(x: int, q: int, r: int)
    requires 0 <= x == q * BLK_SIZE + r && 0 <= r < BLK_SIZE
    ensures (x + 1) / BLK_SIZE == if r == BLK_SIZE - 1 then q + 1 else q
  {
    if r == BLK_SIZE - 1 {
      assert (q + 1) * BLK_SIZE == q * BLK_SIZE + BLK_SIZE;
      DivModUnique(q + 1, 0, BLK_SIZE);
    } else {
      DivModUnique(q, r + 1, BLK_SIZE);
    }
  }

  lemma ResumeParts(index: int, x: int, q: int, r: int)
    requires x == q * BLK_SIZE + r
    ensures BeginPos(index + q, r) == BeginPos(index, x) && BeginPos(index + q + 1, r) == BeginPos(index, x) + BLK_SIZE
  {
    Distribute(index, q);
    Distribute(index, q + 1);
  }

  lemma Distribute(i: int, q: int)
    ensures (i + q) * BLK_SIZE == i * BLK_SIZE + q * BLK_SIZE
    ensures (q - 1) * BLK_SIZE == q * BLK_SIZE - BLK_SIZE
  {
  }

  /** The positions `complete_hash` digests: those already fed, then those it reads. */
  function DigestPositions(n: HashNode, o: Obi): seq<int>
    requires 0 <= n.hashed
  {
    Positions(Begin(o), n.hashed) + Positions(ResumePos(n, o), if Remaining(n, o) > 0 then Remaining(n, o) else 0)
  }

  function Positions(lo: int, count: nat): (r: seq<int>)
    ensures |r| == count && forall i :: 0 <= i < count ==> r[i] == lo + i
  {
    seq(count, i requires 0 <= i => lo + i)
  }

  /** What a caller can check: no forced restart after bytes were fed, no more bytes fed than the
      object now has, and the prefix does not end one byte before a block boundary. */
  predicate DigestsWhole(n: HashNode, o: Obi) {
    if o.flags == 1 then n.hashed == 0 else n.hashed == o.size || (n.hashed < o.size && !AtBlockEnd(n, o))
  }

  /** The digest covers exactly the object's positions if and only if `DigestsWhole`, whatever the
      counter says: a resize can leave it beyond the object's end. */
  lemma DigestWholeIff(n: HashNode, o: Obi)
    requires ObiOk(o) && Aligned(o.beginOffset) && 0 <= n.hashed && 0 <= o.size
    ensures DigestPositions(n, o) == Positions(Begin(o), o.size) <==> DigestsWhole(n, o)
  {
    ResumeIsExact(n, o);
    var whole, all := Positions(Begin(o), o.size), DigestPositions(n, o);
    if o.flags == 1 {
      AlignedRemainder(o.beginOffset);
      assert |all| == n.hashed + o.size;
      if n.hashed == 0 { assert all == whole; }
    } else if n.hashed < o.size {
      assert all[n.hashed] == ResumePos(n, o) && whole[n.hashed] == Begin(o) + n.hashed;
      if !AtBlockEnd(n, o) { assert all == whole; }
    } else {
      assert |all| == n.hashed;
      if n.hashed == o.size { assert all == whole; }
    }
  }

  lemma AlignedRemainder(x: int)
    requires Aligned(x)
    ensures x % BLK_SIZE != BLK_SIZE - 1
  {
    var q, r := Split(x);
    DivModUnique(q, r, BLK_SIZE);
    AlignedBlocks(q);
    AlignedSum(x, -(q * BLK_SIZE));
  }

  /** A prefix that does not end one byte before a 16-byte boundary does not end one before a block's. */
  lemma UnitRemainder(x: int)
    requires x % ALIGN != ALIGN - 1
    ensures x % BLK_SIZE != BLK_SIZE - 1
  {
    var q, r := Split(x);
    DivModUnique(q, r, BLK_SIZE);
    AlignedBlocks(q + 1);
    Distribute(q, 1);
    LastOfUnit(x, (q + 1) * BLK_SIZE);
  }

  lemma LastOfUnit(x: int, end: int)
    requires Aligned(end) && x % ALIGN != ALIGN - 1
    ensures x + 1 != end
  {
  }

  /** Incremental hash equals whole hash. A node whose fed bytes are not the object's prefix
      (left behind by a deleted object, or overwritten since) spoils the digest. */
  lemma CompleteDigestsObject(v: seq<Byte>, n: HashNode, o: Obi)
    requires ObiOk(o) && Aligned(o.beginOffset) && DigestsWhole(n, o)
    requires 0 <= n.hashed && 0 <= o.size && Begin(o) + o.size <= |v| && |n.fed| == n.hashed
    ensures 0 <= Begin(o) && CanComplete(v, n, o)
    ensures DigestInput(v, n, o) == v[Begin(o)..Begin(o) + o.size] <==> Prefix(v, n, o)
  {
    MulMonotone(0, o.beginIndex, BLK_SIZE);
    ResumeIsExact(n, o);
    AlignedRemainder(o.beginOffset);
    var b, h := Begin(o), n.hashed;
    assert Remaining(n, o) > 0 ==> ResumePos(n, o) == b + h;
    assert v[b..b + o.size] == v[b..b + h] + v[b + h..b + o.size];
    assert DigestInput(v, n, o) == n.fed + v[b + h..b + o.size];
    assert DigestInput(v, n, o)[..h] == n.fed;
  }

  // ----- runs of writes ------------------------------------------------------------------------

  datatype SnWrite = SnWrite(pos: int, data: seq<Byte>, o: Obi)

  datatype SnState = SnState(v: seq<Byte>, m: map<Key, HashNode>)

  predicate Enabled(s: SnState, w: SnWrite) { 0 <= w.pos && w.pos + |w.data| <= |s.v| }

  function SnStep(s: SnState, w: SnWrite): SnState
    requires Enabled(s, w)
  {
    SnState(Splice(s.v, w.pos, w.data), UpdateHash(s.m, w.pos, w.data, w.o))
  }

  /** A write of the object itself that stays inside it and off the hashed prefix, or one of
      another object elsewhere. */
  predicate Harmless(s: SnState, w: SnWrite, o: Obi) {
    && Enabled(s, w)
    && if KeyOf(w.o) == KeyOf(o) then
         Begin(o) + NodeFor(s.m, KeyOf(o)).hashed <= w.pos && w.pos + |w.data| <= Begin(o) + o.size
       else
         w.pos + |w.data| <= Begin(o) || Begin(o) + o.size <= w.pos
  }

  predicate HarmlessRun(s: SnState, ws: seq<SnWrite>, o: Obi)
    decreases |ws|
  {
    ws == [] || (Harmless(s, ws[0], o) && HarmlessRun(SnStep(s, ws[0]), ws[1..], o))
  }

  function SnRun(s: SnState, ws: seq<SnWrite>, o: Obi): SnState
    requires HarmlessRun(s, ws, o)
    decreases |ws|
  {
    if ws == [] then s else SnRun(SnStep(s, ws[0]), ws[1..], o)
  }

  lemma HarmlessKeepsPrefix(s: SnState, w: SnWrite, o: Obi)
    requires Prefix(s.v, NodeFor(s.m, KeyOf(o)), o) && Harmless(s, w, o)
    ensures var t := SnStep(s, w); Prefix(t.v, NodeFor(t.m, KeyOf(o)), o)
  {
    var t, b, n := SnStep(s, w), Begin(o), NodeFor(s.m, KeyOf(o));
    assert t.v[b..b + n.hashed] == s.v[b..b + n.hashed];
    if KeyOf(w.o) == KeyOf(o) && b + n.hashed == w.pos {
      assert t.v[b..w.pos + |w.data|] == t.v[b..b + n.hashed] + w.data;
    }
  }

  /** From a node that holds the object's hashed prefix (a fresh one does), after any writes in or
      out of order that never rewrite a hashed byte,
      completion digests exactly the object's bytes. */
  lemma {:induction false} RunHashesObject(s: SnState, ws: seq<SnWrite>, o: Obi)
    requires ObiOk(o) && Aligned(o.beginOffset)
    requires Prefix(s.v, NodeFor(s.m, KeyOf(o)), o) && HarmlessRun(s, ws, o)
    ensures var t := SnRun(s, ws, o);
            var n := NodeFor(t.m, KeyOf(o));
            && Prefix(t.v, n, o)
            && (DigestsWhole(n, o) ==>
                  CanComplete(t.v, n, o) && DigestInput(t.v, n, o) == t.v[Begin(o)..Begin(o) + o.size])
    decreases |ws|
  {
    if ws != [] {
      HarmlessKeepsPrefix(s, ws[0], o);
      RunHashesObject(SnStep(s, ws[0]), ws[1..], o);
    } else if DigestsWhole(NodeFor(s.m, KeyOf(o)), o) {
      CompleteDigestsObject(s.v, NodeFor(s.m, KeyOf(o)), o);
    }
  }
}
