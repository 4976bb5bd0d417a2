/** The storage behind the API server: what its tables own lies on the storage nodes. */
module ApiStore {
  import opened Layout
  import opened Ownership
  import opened ObjectSpec
  import opened ObjectProof
  import opened ObjectRuns
  import R = RegmSpec
  import S = StorageSpec
  import opened Regm

  // ----- the storage nodes ------------------------------------------------------------------------

  function NodeKey(p: Place): S.Key { (p.beginIndex, p.beginOffset) }

  /** Each volume's storage node holds the volume's bytes and the hash nodes of objects on it. */
  ghost predicate StoreOk(nodes: map<int, S.SnState>, vols: map<int, R.Volume>, bytes: Cell -> Byte,
                          hashNodes: map<Place, S.HashNode>) {
    && (forall v :: v in vols ==> v in nodes && |nodes[v].v| == vols[v].curPosition + vols[v].reserved)
    && BytesOk(nodes, bytes)
    && (forall p: Place :: p.vol in nodes ==> HashNodeOk(nodes, hashNodes, p))
  }

  ghost predicate BytesOk(nodes: map<int, S.SnState>, bytes: Cell -> Byte) {
    forall c: Cell :: c.0 in nodes && 0 <= c.1 < |nodes[c.0].v| ==> bytes(c) == nodes[c.0].v[c.1]
  }

  ghost predicate HashNodeOk(nodes: map<int, S.SnState>, hashNodes: map<Place, S.HashNode>, p: Place)
    requires p.vol in nodes
  {
    S.NodeFor(nodes[p.vol].m, NodeKey(p)) == NodeAt(hashNodes, p)
  }

  lemma HeldIsStored(r: R.Sys, nodes: map<int, S.SnState>, bytes: Cell -> Byte, hashNodes: map<Place, S.HashNode>,
                     c: Cell)
    requires R.Inv(r) && StoreOk(nodes, r.vols, bytes, hashNodes) && c in r.held
    ensures c.0 in nodes && 0 <= c.1 < |nodes[c.0].v|
  {
    assert Below(c, R.Cur(r.vols));
    PositionInVolume(r.vols, c.0);
  }

  lemma PositionInVolume(vols: map<int, R.Volume>, v: int)
    requires R.VolumesOk(vols) && v in vols
    ensures 0 <= vols[v].reserved
  {
    assert R.VolumeOk(vols[v]);
  }

  /** The allocator's view and the object layer's view of the storage fit together. */
  ghost predicate Backed(s: Sys, r: R.Sys, nodes: map<int, S.SnState>) {
    R.Inv(r) && r.held == s.held && StoreOk(nodes, r.vols, s.bytes, s.nodes)
  }

  /** Whatever an object or a record owns lies inside a volume. */
  lemma OwnedIsStored(s: Sys, k: Owner, r: R.Sys, nodes: map<int, S.SnState>)
    requires Inv(s) && IsOwner(s, k) && Backed(s, r, nodes) && OwnedBy(s, k).lo < OwnedBy(s, k).hi
    ensures var e := OwnedBy(s, k); e.vol in nodes && 0 <= e.lo && e.hi <= |nodes[e.vol].v|
  {
    var e := OwnedBy(s, k);
    assert In((e.vol, e.lo), Claims(s)[k]) && In((e.vol, e.hi - 1), Claims(s)[k]);
    HeldIsStored(r, nodes, s.bytes, s.nodes, (e.vol, e.lo));
    HeldIsStored(r, nodes, s.bytes, s.nodes, (e.vol, e.hi - 1));
  }

  lemma StretchIsStored(nodes: map<int, S.SnState>, bytes: Cell -> Byte, vol: int, at: int, n: int)
    requires BytesOk(nodes, bytes) && 0 <= n && vol in nodes && 0 <= at && at + n <= |nodes[vol].v|
    ensures nodes[vol].v[at..at + n] == Stretch(bytes, vol, at, n)
  {
    forall i | 0 <= i < n ensures nodes[vol].v[at..at + n][i] == Stretch(bytes, vol, at, n)[i] {
      assert bytes((vol, at + i)) == nodes[vol].v[at + i];
    }
  }

  /** What a node does with a write is what the object layer does with it. */
  lemma WriteIsStored(nodes: map<int, S.SnState>, vols: map<int, R.Volume>, bytes: Cell -> Byte,
                      hashNodes: map<Place, S.HashNode>,
                      c: Cached, offset: int, part: seq<Byte>)
    requires StoreOk(nodes, vols, bytes, hashNodes) && c.place.vol in nodes
    requires 0 <= Pos(Address(c.place, offset)) && Pos(Address(c.place, offset)) + |part| <= |nodes[c.place.vol].v|
    ensures var at := Pos(Address(c.place, offset));
            var node := S.SnStep(nodes[c.place.vol], S.SnWrite(at, part, Context(c)));
            StoreOk(nodes[c.place.vol := node], vols, Written(bytes, c.place.vol, at, part),
                    NodesAfter(hashNodes, c.place, offset, part))
  {
    var at := Pos(Address(c.place, offset));
    var node := S.SnStep(nodes[c.place.vol], S.SnWrite(at, part, Context(c)));
    var after := nodes[c.place.vol := node];
    forall p: Place | p.vol in after ensures HashNodeOk(after, NodesAfter(hashNodes, c.place, offset, part), p) {
      assert HashNodeOk(nodes, hashNodes, p) && HashNodeOk(nodes, hashNodes, c.place);
    }
  }

  /** What the node digests is what the object layer says it digests. */
  lemma InputIsStored(nodes: map<int, S.SnState>, vols: map<int, R.Volume>, bytes: Cell -> Byte,
                      hashNodes: map<Place, S.HashNode>, c: Cached)
    requires StoreOk(nodes, vols, bytes, hashNodes) && c.place.vol in nodes
    requires S.CanComplete(nodes[c.place.vol].v, S.NodeFor(nodes[c.place.vol].m, NodeKey(c.place)), Context(c))
    ensures S.DigestInput(nodes[c.place.vol].v, S.NodeFor(nodes[c.place.vol].m, NodeKey(c.place)), Context(c))
            == NodeInput(bytes, hashNodes, c)
    ensures StoreOk(nodes[c.place.vol := nodes[c.place.vol].(m := nodes[c.place.vol].m - {NodeKey(c.place)})], vols,
                    bytes, hashNodes - {c.place})
  {
    assert HashNodeOk(nodes, hashNodes, c.place);
    var n, o := NodeAt(hashNodes, c.place), Context(c);
    if S.Remaining(n, o) > 0 { StretchIsStored(nodes, bytes, c.place.vol, S.ResumePos(n, o), S.Remaining(n, o)); }
    var after := nodes[c.place.vol := nodes[c.place.vol].(m := nodes[c.place.vol].m - {NodeKey(c.place)})];
    forall p: Place | p.vol in after ensures HashNodeOk(after, hashNodes - {c.place}, p) {
      assert HashNodeOk(nodes, hashNodes, p);
    }
  }

  // ----- addresses -----------------------------------------------------------------------------------

  /** The node's checks never fail on an address inside the object. */
  lemma NodeAccepts(p: Place, size: int, offset: int, flags: int)
    requires PlaceOk(p) && SizeOk(size) && 0 <= offset < size
    ensures var a := Address(p, offset);
            0 <= a.beginOffset < BLK_SIZE && S.UpdateOk(a.beginIndex, a.beginOffset,
                                                        S.Obi(p.beginIndex, p.beginOffset, size, flags))
  {
    ByteAddress(p.beginIndex, p.beginOffset, offset);
    var a := Address(p, offset);
    BlockNotBefore(p.beginIndex, p.beginOffset, a.beginIndex, a.beginOffset);
  }

  lemma BlockNotBefore(i: int, o: int, j: int, p: int)
    requires 0 <= o && p < BLK_SIZE && BeginPos(i, o) <= BeginPos(j, p)
    ensures i <= j
  {
    MulMonotone(j + 1, i, BLK_SIZE);
  }

  lemma RangeParamsOk(b: R.Blks)
    requires R.BlksOk(b)
    ensures ParamsOk(b)
  {
    AlignUp(b.beginOffset);
    AlignUp(b.endOffset);
    BlockNotBefore(b.beginIndex, b.beginOffset, b.endIndex, b.endOffset);
  }

  /** The two computations a handler makes of a byte's address. */
  method Locate(p: Place, offset: int) returns (blkIndex: int, blkOffset: int)
    ensures Address(p, offset) == Place(p.vol, blkIndex, blkOffset)
  {
    blkOffset := OffsetOf(BeginPos(p.beginIndex, p.beginOffset) + offset);
    blkIndex := BlkIndex(p.beginIndex, p.beginOffset, PosAlign(offset));
  }
}
