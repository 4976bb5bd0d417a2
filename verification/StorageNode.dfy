/**
 The storage node's handlers (bfss_sn/bfss_sn.cpp) over the real cache: a request is split
 at block boundaries and served one block at a time.
 */
module StorageNode {
  import opened Layout
  import opened Cipher
  import opened StorageSpec
  import opened Cache
  import R = CacheRuns
  import I = CacheInvariant

  datatype Outcome = Success | ParamError

  /** The logical blocks behind the cache. */
  ghost function Array(list: LruIndexableList): seq<Block>
    requires list.Valid()
    reads list, list.nodes, list.device, list.device.bits
  {
    R.PlainOf(list.Abs())
  }

  /** The volume as a reader sees it, in plaintext or in ciphertext. */
  function Content(c: Ecb, p: seq<Block>, decrypt: bool): seq<Byte> {
    if decrypt then Flat(p) else Flat(EncryptAll(c, p, 0))
  }

  ghost predicate Ready(list: LruIndexableList)
    reads list, list.nodes, list.device, list.device.bits
  {
    list.Valid() && I.Inv(list.Abs())
  }

  /** One block's share of a write. */
  method WriteBlock(list: LruIndexableList, index: nat, offset: nat, data: seq<Byte>) returns (size: nat)
    requires Ready(list) && offset <= BLK_SIZE && data != []
    requires BeginPos(index, offset) + |data| <= |Flat(Array(list))|
    modifies list`latest, list`order, list`index, list.nodes, list.device`disk, list.device.bits
    ensures Ready(list) && size == R.Clip(offset, |data|)
    ensures 0 <= BeginPos(index, offset) && BeginPos(index, offset) + size <= |old(Flat(Array(list)))|
    ensures Flat(Array(list)) == Splice(old(Flat(Array(list))), BeginPos(index, offset), data[..size])
  {
    ghost var s := list.Abs();
    InVolume(R.PlainOf(s), index, offset, |data|);
    size := list.Write(index, offset, data);
    R.WriteRefines(s, index, offset, data);
    PatchSplices(R.PlainOf(s), index, offset, data[..size]);
  }

  /** The loop of `WriteData`: one contiguous write. An offset equal to the block size is
      admitted; its first round writes nothing. */
  method WriteLoop(list: LruIndexableList, index: nat, offset: nat, data: seq<Byte>)
    requires Ready(list) && offset <= BLK_SIZE
    requires BeginPos(index, offset) + |data| <= |Flat(Array(list))|
    modifies list`latest, list`order, list`index, list.nodes, list.device`disk, list.device.bits
    ensures Ready(list) && 0 <= BeginPos(index, offset)
    ensures Flat(Array(list)) == Splice(old(Flat(Array(list))), BeginPos(index, offset), data)
  {
    ghost var v, pos := Flat(Array(list)), BeginPos(index, offset);
    MulMonotone(0, index, BLK_SIZE);
    var rest, i, o := data, index, offset;
    ghost var done := [];
    assert done + rest == data && Splice(v, pos, done) == v;
    while rest != []
      invariant Writing(list, v, pos, data, done, rest, i, o)
      decreases |rest|, o
    {
      rest, i, o, done := WriteRound(list, v, pos, data, done, rest, i, o);
    }
    assert done == data;
  }

  /** `done` is on the volume from position `pos` on, and `rest` goes to (i, o). */
  ghost predicate Writing(list: LruIndexableList, v: seq<Byte>, pos: nat, data: seq<Byte>, done: seq<Byte>,
                          rest: seq<Byte>, i: nat, o: nat)
    reads list, list.nodes, list.device, list.device.bits
  {
    && Ready(list) && o <= BLK_SIZE && pos + |data| <= |v| && done + rest == data
    && (rest != [] ==> BeginPos(i, o) == pos + |done|)
    && Flat(Array(list)) == Splice(v, pos, done)
  }

  /** One round of the loop: the data is advanced by what fitted, the index by one. */
  method WriteRound(list: LruIndexableList, ghost v: seq<Byte>, ghost pos: nat, ghost data: seq<Byte>,
                    ghost done: seq<Byte>, rest: seq<Byte>, i: nat, o: nat)
    returns (rest': seq<Byte>, i': nat, o': nat, ghost done': seq<Byte>)
    requires Writing(list, v, pos, data, done, rest, i, o) && rest != []
    modifies list`latest, list`order, list`index, list.nodes, list.device`disk, list.device.bits
    ensures Writing(list, v, pos, data, done', rest', i', o') && o' == 0
    ensures |rest'| < |rest| || (rest' == rest && o == BLK_SIZE)
  {
    WriteProgress(v, pos, data, done, rest, i, o);
    var size := WriteBlock(list, i, o, rest);
    rest', i', o' := rest[size..], i + 1, 0;
    done' := done + rest[..size];
  }

  /** A request that is cut off at the block's end continues at the next block's start. */
  lemma NextBlock(i: int, o: nat, size: nat)
    requires o <= BLK_SIZE
    ensures R.Clip(o, size) < size ==> BeginPos(i + 1, 0) == BeginPos(i, o) + R.Clip(o, size)
    ensures o < BLK_SIZE && 0 < size ==> 0 < R.Clip(o, size)
  {
  }

  lemma WriteProgress(v: seq<Byte>, pos: nat, data: seq<Byte>, done: seq<Byte>, rest: seq<Byte>, i: int, o: nat)
    requires done + rest == data && pos + |data| <= |v| && o <= BLK_SIZE && BeginPos(i, o) == pos + |done|
    ensures var n := R.Clip(o, |rest|);
            var now := done + rest[..n];
            && now + rest[n..] == data
            && (rest[n..] != [] ==> BeginPos(i + 1, 0) == pos + |now|)
            && Splice(Splice(v, pos, done), BeginPos(i, o), rest[..n]) == Splice(v, pos, now)
            && (o < BLK_SIZE && rest != [] ==> 0 < n)
  {
    NextBlock(i, o, |rest|);
    SpliceSplice(v, pos, done, rest[..R.Clip(o, |rest|)]);
  }

  method ReadBlock(list: LruIndexableList, index: nat, offset: nat, size: nat, decrypt: bool, ghost p: seq<Block>)
    returns (data: seq<Byte>)
    requires Ready(list) && Array(list) == p && offset <= BLK_SIZE && 0 < size
    requires BeginPos(index, offset) + size <= |Flat(p)|
    modifies list`latest, list`order, list`index, list.nodes, list.device`disk, list.device.bits
    ensures Ready(list) && Array(list) == p && |data| == R.Clip(offset, size)
    ensures IsStretch(Content(list.c, p, decrypt), BeginPos(index, offset), data)
  {
    ghost var s := list.Abs();
    InVolume(p, index, offset, size);
    data := list.Read(index, offset, size, decrypt);
    R.ReadFacts(s, list.Abs(), index, offset, size, decrypt);
    BlockSlice(s.c, p, index, offset, size, decrypt);
  }

  ghost predicate IsStretch(v: seq<Byte>, at: int, data: seq<Byte>) {
    0 <= at && at + |data| <= |v| && v[at..at + |data|] == data
  }

  lemma BlockSlice(c: Ecb, p: seq<Block>, b: nat, offset: nat, size: nat, decrypt: bool)
    requires b < |p| && offset <= BLK_SIZE
    ensures IsStretch(Content(c, p, decrypt), BeginPos(b, offset), R.Slice(c, R.ReadOp(b, offset, size, decrypt), p[b]))
  {
    SliceOfVolume(if decrypt then p else EncryptAll(c, p, 0), b, offset, R.Clip(offset, size));
  }

  lemma StretchConcat(v: seq<Byte>, at: int, d: seq<Byte>, next: int, e: seq<Byte>)
    requires IsStretch(v, at, d) && IsStretch(v, next, e) && next == at + |d|
    ensures IsStretch(v, at, d + e)
  {
  }

  /** The loop of `ReadData`: one contiguous read. */
  method ReadLoop(list: LruIndexableList, index: nat, offset: nat, size: nat, decrypt: bool) returns (data: seq<Byte>)
    requires Ready(list) && offset <= BLK_SIZE
    requires BeginPos(index, offset) + size <= |Flat(Array(list))|
    modifies list`latest, list`order, list`index, list.nodes, list.device`disk, list.device.bits
    ensures Ready(list) && Array(list) == old(Array(list)) && |data| == size
    ensures IsStretch(Content(list.c, Array(list), decrypt), BeginPos(index, offset), data)
  {
    ghost var pos, p := BeginPos(index, offset), Array(list);
    MulMonotone(0, index, BLK_SIZE);
    FlatLength(p);
    FlatLength(EncryptAll(list.c, p, 0));
    data := [];
    var left, i, o := size, index, offset;
    while left > 0
      invariant Reading(list, p, pos, size, decrypt, data, left, i, o)
      decreases left, o
    {
      data, left, i, o := ReadRound(list, p, pos, size, decrypt, data, left, i, o);
    }
  }

  ghost predicate Reading(list: LruIndexableList, p: seq<Block>, pos: nat, size: nat, decrypt: bool, data: seq<Byte>,
                          left: nat, i: nat, o: nat)
    reads list, list.nodes, list.device, list.device.bits
  {
    && Ready(list) && Array(list) == p && o <= BLK_SIZE && pos + size <= |Flat(p)| && |data| + left == size
    && (left > 0 ==> BeginPos(i, o) == pos + |data|)
    && IsStretch(Content(list.c, p, decrypt), pos, data)
  }

  method ReadRound(list: LruIndexableList, ghost p: seq<Block>, ghost pos: nat, ghost size: nat, decrypt: bool,
                   data: seq<Byte>, left: nat, i: nat, o: nat)
    returns (data': seq<Byte>, left': nat, i': nat, o': nat)
    requires Reading(list, p, pos, size, decrypt, data, left, i, o) && 0 < left
    modifies list`latest, list`order, list`index, list.nodes, list.device`disk, list.device.bits
    ensures Reading(list, p, pos, size, decrypt, data', left', i', o') && o' == 0
    ensures left' < left || (left' == left && o == BLK_SIZE)
  {
    NextBlock(i, o, left);
    var part := ReadBlock(list, i, o, left, decrypt, p);
    StretchConcat(Content(list.c, p, decrypt), pos, data, BeginPos(i, o), part);
    data', left', i', o' := data + part, left - |part|, i + 1, 0;
  }

  /** The parameters `WriteData` takes: the write does not begin before the object's first block or
      after its last byte. */
  predicate Admitted(index: int, offset: int, data: seq<Byte>, o: Obi) {
    && 0 <= offset <= BLK_SIZE && data != [] && 0 <= o.beginIndex <= index
    && 0 <= o.beginOffset <= BLK_SIZE && o.size <= OBJECT_MAX_SIZE
    && index * BLK_SIZE + offset <= o.beginIndex * BLK_SIZE + o.beginOffset + o.size
  }

  lemma AdmittedIs(index: int, offset: int, data: seq<Byte>, o: Obi)
    ensures Admitted(index, offset, data, o) <==> 0 <= offset <= BLK_SIZE && data != [] && UpdateOk(index, offset, o)
  {
  }

  /** From `at` on the volume has `data`, and everything else is as before. */
  ghost predicate Spliced(v: seq<Byte>, w: seq<Byte>, at: int, data: seq<Byte>) {
    0 <= at && at + |data| <= |v| && w == v[..at] + data + v[at + |data|..]
  }

  // ----- the handlers --------------------------------------------------------------------------

  class SndHandler {
    const list: LruIndexableList
    var hashMap: map<Key, HashNode>

    constructor (list: LruIndexableList)
      ensures this.list == list && hashMap == map[]
    {
      this.list := list;
      hashMap := map[];
    }

    /** What clients see of the node. */
    ghost function State(): SnState
      requires list.Valid()
      reads this, list, list.nodes, list.device, list.device.bits
    {
      SnState(Flat(Array(list)), hashMap)
    }

    method WriteData(index: int, offset: int, data: seq<Byte>, o: Obi) returns (r: Outcome)
      requires Ready(list)
      requires offset <= BLK_SIZE && UpdateOk(index, offset, o) ==>
                 BeginPos(index, offset) + |data| <= |Flat(Array(list))|
      modifies `hashMap, list`latest, list`order, list`index, list.nodes, list.device`disk, list.device.bits
      ensures Ready(list)
      ensures r == Success <==> Admitted(index, offset, data, o)
      ensures r == ParamError ==> State() == old(State())
      ensures r == Success ==>
                var w := SnWrite(BeginPos(index, offset), data, o);
                Enabled(old(State()), w) && State() == SnStep(old(State()), w)
      ensures r == Success ==> Spliced(old(State().v), State().v, index * BLK_SIZE + offset, data)
    {
      AdmittedIs(index, offset, data, o);
      r := WriteChecked(index, offset, data, o);
    }

    /** The handler of `WriteData`. */
    method WriteChecked(index: int, offset: int, data: seq<Byte>, o: Obi) returns (r: Outcome)
      requires Ready(list)
      requires offset <= BLK_SIZE && UpdateOk(index, offset, o) ==>
                 BeginPos(index, offset) + |data| <= |Flat(Array(list))|
      modifies `hashMap, list`latest, list`order, list`index, list.nodes, list.device`disk, list.device.bits
      ensures Ready(list)
      ensures r == Success <==> 0 <= offset <= BLK_SIZE && data != [] && UpdateOk(index, offset, o)
      ensures r == ParamError ==> State() == old(State())
      ensures r == Success ==>
                var w := SnWrite(BeginPos(index, offset), data, o);
                Enabled(old(State()), w) && State() == SnStep(old(State()), w)
      ensures r == Success ==> Spliced(old(State().v), State().v, index * BLK_SIZE + offset, data)
    {
      if index < 0 || offset < 0 || offset > BLK_SIZE || |data| < 1 { return ParamError; }
      if !UpdateOk(index, offset, o) { return ParamError; }
      ghost var s := State();
      FeedHash(BeginPos(index, offset), data, o);
      WriteLoop(list, index, offset, data);
      WriteSteps(s, index, offset, data, o, State());
      r := Success;
    }

    /** `update_hash` on the node's hash map. */
    method FeedHash(pos: int, data: seq<Byte>, o: Obi)
      requires Ready(list)
      modifies `hashMap
      ensures Ready(list) && Flat(Array(list)) == old(Flat(Array(list)))
              && hashMap == UpdateHash(old(hashMap), pos, data, o)
    {
      hashMap := UpdateHash(hashMap, pos, data, o);
    }

    method ReadData(index: int, offset: int, size: int, decrypt: bool) returns (r: Outcome, data: seq<Byte>)
      requires Ready(list)
      requires 0 <= index && 0 <= offset <= BLK_SIZE && 1 <= size <= CHIP_MAX_SIZE ==>
                 BeginPos(index, offset) + size <= |Flat(Array(list))|
      modifies list`latest, list`order, list`index, list.nodes, list.device`disk, list.device.bits
      ensures Ready(list) && Array(list) == old(Array(list))
      ensures r == Success <==> 0 <= index && 0 <= offset <= BLK_SIZE && 1 <= size <= CHIP_MAX_SIZE
      ensures r == Success ==>
                var v := if decrypt then Flat(Array(list)) else Flat(EncryptAll(list.c, Array(list), 0));
                |data| == size && IsStretch(v, index * BLK_SIZE + offset, data)
    {
      data := [];
      if index < 0 || offset < 0 || offset > BLK_SIZE || size < 1 || size > CHIP_MAX_SIZE { return ParamError, []; }
      data := ReadLoop(list, index, offset, size, decrypt);
      r := Success;
    }

    /** `complete_hash` up to the final digest: `fed` is the digested input. */
    method CompleteHash(o: Obi) returns (r: Outcome, fed: seq<Byte>)
      requires Ready(list) && 0 <= NodeFor(hashMap, KeyOf(o)).hashed
      requires ObiOk(o) ==> CanComplete(Flat(Array(list)), NodeFor(hashMap, KeyOf(o)), o)
      modifies `hashMap, list`latest, list`order, list`index, list.nodes, list.device`disk, list.device.bits
      ensures Ready(list) && Array(list) == old(Array(list))
      ensures r == Success <==>
                0 <= o.beginIndex && 0 <= o.beginOffset <= BLK_SIZE && o.size <= OBJECT_MAX_SIZE
      ensures r == ParamError ==> hashMap == old(hashMap)
      ensures r == Success ==> hashMap == old(hashMap) - {(o.beginIndex, o.beginOffset)}
      ensures r == Success ==>
                && CanComplete(old(Flat(Array(list))), NodeFor(old(hashMap), KeyOf(o)), o)
                && fed == DigestInput(old(Flat(Array(list))), NodeFor(old(hashMap), KeyOf(o)), o)
    {
      if !ObiOk(o) { return ParamError, []; }
      var node := NodeFor(hashMap, KeyOf(o));
      ghost var v, n := Flat(Array(list)), node;
      hashMap := hashMap - {KeyOf(o)};
      if o.flags == 1 { node := node.(hashed := 0); }
      fed := FinishHash(node, o, v, n);
      r := Success;
    }

    method FinishHash(node: HashNode, o: Obi, ghost v: seq<Byte>, ghost n: HashNode) returns (fed: seq<Byte>)
      requires Ready(list) && v == Flat(Array(list)) && ObiOk(o) && 0 <= n.hashed
      requires node == Restarted(n, o) && CanComplete(v, n, o)
      modifies list`latest, list`order, list`index, list.nodes, list.device`disk, list.device.bits
      ensures Ready(list) && Array(list) == old(Array(list)) && fed == DigestInput(v, n, o)
    {
      fed := node.fed;
      var index, offset := Resume(n, o, node.hashed);
      var size := o.size - node.hashed;
      if size > 0 {
        var data := ReadLoop(list, index, offset, size, true);
        StretchDigest(v, n, o, data);
        fed := fed + data;
      }
    }
  }

  lemma WriteSteps(s: SnState, index: nat, offset: nat, data: seq<Byte>, o: Obi, t: SnState)
    requires 0 <= BeginPos(index, offset) && BeginPos(index, offset) + |data| <= |s.v|
    requires t.v == Splice(s.v, BeginPos(index, offset), data)
             && t.m == UpdateHash(s.m, BeginPos(index, offset), data, o)
    ensures var w := SnWrite(BeginPos(index, offset), data, o); Enabled(s, w) && t == SnStep(s, w)
  {
  }

  /** Where the digest is resumed: the block and the offset in it. */
  method Resume(ghost n: HashNode, o: Obi, hashed: int) returns (index: nat, offset: nat)
    requires ObiOk(o) && 0 <= n.hashed && hashed == Restarted(n, o).hashed
    ensures offset < BLK_SIZE && BeginPos(index, offset) == ResumePos(n, o)
  {
    TruncRange(o.beginOffset + hashed);
    TruncRange(o.beginOffset + hashed + 1);
    index, offset := GetIndex(o.beginIndex, o.beginOffset, hashed), GetOffset(o.beginOffset, hashed);
  }

  lemma StretchDigest(v: seq<Byte>, n: HashNode, o: Obi, data: seq<Byte>)
    requires 0 < Remaining(n, o) == |data| && CanComplete(v, n, o) && IsStretch(v, ResumePos(n, o), data)
    ensures n.fed + data == DigestInput(v, n, o)
  {
  }
}
