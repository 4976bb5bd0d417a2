/**
 The API server (bfss_api/bfss_api.cpp, bfss_api/bfss_api.h): its handlers over the object and
 hash tables, the object cache, the allocator, and the storage nodes as their clients see them.
 */
module Api {
  import opened Layout
  import opened Ownership
  import opened HexCodec
  import opened ObjectSpec
  import opened ObjectProof
  import opened ObjectRuns
  import ObjectNodes
  import opened ObjectContents
  import opened ApiSteps
  import opened Extents
  import opened ApiStore
  import opened ApiCipher
  import C = Cipher
  import E = EncryptedRead
  import R = RegmSpec
  import S = StorageSpec
  import opened Regm

  datatype Result =
    | Success | ParamError | NotFound | AlreadyCompleted | WriteIncomplete | NoRoom | Duplicate | Unreachable

  // ----- the state of the server ----------------------------------------------------------------------

  /** The tables are those of a good state of the protocol; what they own is what the allocator
      has handed out, and the nodes hold the bytes. */
  ghost predicate Good(s: Sys, digest: seq<Byte> -> string, objects: map<Oid, Doc>, hashes: map<Key, Record>,
                       cache: map<Oid, Cached>,
                       nodes: map<int, S.SnState>, vols: map<int, R.Volume>, held: iset<Cell>) {
    && Inv(s) && Quiet(s) && s.digest == digest && s.objects == objects && s.hashes == hashes && s.cache == cache
    && s.held == held && StoreOk(nodes, vols, s.bytes, s.nodes)
  }

  /** What a handler sends to a node lies inside the volume. */
  lemma WriteFits(s: Sys, oid: Oid, offset: int, n: int, r: R.Sys, nodes: map<int, S.SnState>)
    requires CanHandle(s, oid) && Backed(s, r, nodes) && 0 <= offset && 0 <= n && offset + n <= View(s, oid).size
    ensures var a := Address(View(s, oid).place, offset);
            a.vol == View(s, oid).place.vol && a.vol in nodes && 0 <= Pos(a) && Pos(a) + n <= |nodes[a.vol].v|
  {
    HandlerView(s, oid);
    var d := s.objects[oid];
    AlignUp(d.size);
    AddressIs(d.place, offset);
    OwnedIsStored(s, OfObject(oid), r, nodes);
  }

  lemma ReadFits(s: Sys, oid: Oid, offset: int, n: int, r: R.Sys, nodes: map<int, S.SnState>)
    requires Inv(s) && Finished(s, oid) && Backed(s, r, nodes) && 0 <= offset && 0 <= n
             && offset + n <= s.objects[oid].size
    ensures var a := Address(s.objects[oid].place, offset);
            a.vol in nodes && 0 <= Pos(a) && Pos(a) + n <= |nodes[a.vol].v|
  {
    var d := s.objects[oid];
    assert OidOk(s, oid);
    AlignUp(d.size);
    AddressIs(d.place, offset);
    OwnedIsStored(s, OfRecord(KeyOf(d)), r, nodes);
  }

  lemma StoredRead(s: Sys, oid: Oid, offset: int, n: int, blkIndex: int, blkOffset: int, r: R.Sys,
                   nodes: map<int, S.SnState>)
    requires Inv(s) && Finished(s, oid) && Backed(s, r, nodes) && 0 <= offset && 0 <= n
             && offset + n <= s.objects[oid].size
    requires Address(s.objects[oid].place, offset) == Place(s.objects[oid].place.vol, blkIndex, blkOffset)
    ensures var d, pos := s.objects[oid], BeginPos(blkIndex, blkOffset);
            && d.place.vol in nodes && 0 <= pos && pos + n <= |nodes[d.place.vol].v|
            && nodes[d.place.vol].v[pos..pos + n] == Content(s.bytes, Address(d.place, offset), n)
  {
    ReadFits(s, oid, offset, n, r, nodes);
    StretchIsStored(nodes, s.bytes, s.objects[oid].place.vol, Pos(Address(s.objects[oid].place, offset)), n);
  }

  ghost predicate SameSizes(vols: map<int, R.Volume>, after: map<int, R.Volume>) {
    forall v :: v in after ==>
      v in vols && after[v].curPosition + after[v].reserved == vols[v].curPosition + vols[v].reserved
  }

  lemma SameStore(nodes: map<int, S.SnState>, vols: map<int, R.Volume>, after: map<int, R.Volume>, bytes: Cell -> Byte,
                  hashNodes: map<Place, S.HashNode>)
    requires StoreOk(nodes, vols, bytes, hashNodes) && SameSizes(vols, after)
    ensures StoreOk(nodes, after, bytes, hashNodes)
  {
  }

  /** The node's reply to `CompleteWriteObj` stays inside the volume. */
  predicate Digests(nodes: map<int, S.SnState>, c: Cached) {
    c.place.vol in nodes ==>
      S.CanComplete(nodes[c.place.vol].v, S.NodeFor(nodes[c.place.vol].m, NodeKey(c.place)), Context(c))
  }

  lemma WriteGood(s: Sys, oid: Oid, c: Cached, offset: int, data: seq<Byte>, part: seq<Byte>, head: seq<Byte>, doc: Doc,
                  nodes: map<int, S.SnState>, vols: map<int, R.Volume>)
    returns (t: Sys)
    requires CanHandle(s, oid) && Enabled(s, Write(oid, offset, data)) && oid in s.objects && c == View(s, oid)
    requires part == Clipped(c.size, offset, data) && head == HeadAfter(c.head, c.size, offset, part)
    requires doc == if HeadLen(c.size) > offset then s.objects[oid].(head := Bin2Hex(head)) else s.objects[oid]
    requires StoreOk(nodes, vols, Written(s.bytes, c.place.vol, Pos(Address(c.place, offset)), part),
                     NodesAfter(s.nodes, c.place, offset, part))
    ensures t == Apply(s, Write(oid, offset, data))
    ensures Good(t, s.digest, s.objects[oid := doc], s.hashes, s.cache[oid := c.(head := head)], nodes, vols, s.held)
  {
    StepKeeps(s, Write(oid, offset, data));
    t := Apply(s, Write(oid, offset, data));
  }

  lemma ResizeGood(s: Sys, oid: Oid, c: Cached, newSize: int, head: seq<Byte>, nodes: map<int, S.SnState>,
                   vols: map<int, R.Volume>)
    returns (t: Sys)
    requires CanHandle(s, oid) && Enabled(s, Resize(oid, newSize)) && oid in s.objects && c == View(s, oid)
    requires head == Resized(c.head, HeadLen(newSize)) && StoreOk(nodes, vols, s.bytes, s.nodes)
    ensures t == Apply(s, Resize(oid, newSize))
    ensures Good(t, s.digest, s.objects[oid := s.objects[oid].(size := newSize, head := Bin2Hex(head))], s.hashes,
                 s.cache[oid := c.(size := newSize, head := head, flags := 1)], nodes, vols,
                     HeldAfter(s.held, c.place, newSize, c.size))
    ensures PlaceOk(c.place) && Cells(Rest(c.place, newSize, c.size)) <= s.held
  {
    StepKeeps(s, Resize(oid, newSize));
    t := Apply(s, Resize(oid, newSize));
    HandlerView(s, oid);
    OpenIsHeld(s, oid);
    RestInside(c.place, newSize, c.size);
  }

  lemma RestInside(p: Place, newSize: int, oldSize: int)
    requires 0 < newSize
    ensures Cells(Rest(p, newSize, oldSize)) <= Cells(ExtentOf(p, oldSize))
  {
    AlignUp(newSize);
  }

  lemma OpenIsHeld(s: Sys, oid: Oid)
    requires CanHandle(s, oid)
    ensures var c := View(s, oid); PlaceOk(c.place) && SizeOk(c.size) && Cells(ExtentOf(c.place, c.size)) <= s.held
  {
    HandlerView(s, oid);
    var c := View(s, oid);
    forall x | x in Cells(ExtentOf(c.place, c.size)) ensures x in s.held { assert In(x, Claims(s)[OfObject(oid)]); }
  }

  lemma CompleteGood(s: Sys, oid: Oid, c: Cached, hash: string, nodes: map<int, S.SnState>, vols: map<int, R.Volume>)
      returns (t: Sys)
    requires CanHandle(s, oid) && c == View(s, oid) && hash == s.digest(NodeInput(s.bytes, s.nodes, c))
    requires StoreOk(nodes, vols, s.bytes, s.nodes - {c.place})
    ensures oid in s.objects && PlaceOk(c.place) && SizeOk(c.size) && Cells(ExtentOf(c.place, c.size)) <= s.held
    ensures var (key, r, p) := JoinedRecord(s, c, hash, s.objects[oid]);
            && t == Completed(s, oid)
            && Good(t, s.digest, s.objects[oid := s.objects[oid].(hash := hash, complete := true, place := p)],
                    s.hashes[key := r],
                    s.cache[oid := c.(hash := hash, complete := true, place := p)], nodes, vols,
                        HeldJoined(s.held, c, r))
  {
    CompletedIs(s, oid);
    CompletedKeeps(s, oid);
    OpenIsHeld(s, oid);
    t := Completed(s, oid);
  }

  lemma LinkGood(s: Sys, oid: Oid, key: Key, docs: map<Oid, Doc>, records: map<Key, Record>, nodes: map<int, S.SnState>,
                 vols: map<int, R.Volume>)
    returns (t: Sys)
    requires Inv(s) && Quiet(s) && oid !in s.stale && key in s.hashes && StoreOk(nodes, vols, s.bytes, s.nodes)
    requires var record := AddRef(s.hashes[key], 1, 1);
             && (oid in s.objects ==>
                   docs == s.objects && records == s.hashes[key := record][key := AddRef(record, -1, 0)])
             && (oid !in s.objects ==>
                   && docs == s.objects[oid := Doc(record.place, key.size, true, key.hash, key.head)]
                   && records == s.hashes[key := record])
    ensures t == Linked(s, oid, key) && Good(t, s.digest, docs, records, s.cache, nodes, vols, s.held)
  {
    t := Linked(s, oid, key);
    LinkedTables(s, oid, key, docs, records);
    LinkedKeeps(s, oid, key);
  }

  lemma LinkedTables(s: Sys, oid: Oid, key: Key, docs: map<Oid, Doc>, records: map<Key, Record>)
    requires Quiet(s) && key in s.hashes
    requires var record := AddRef(s.hashes[key], 1, 1);
             if oid in s.objects then
               docs == s.objects && records == s.hashes[key := record][key := AddRef(record, -1, 0)]
             else
               docs == s.objects[oid := LinkedDoc(record, key)] && records == s.hashes[key := record]
    ensures Linked(s, oid, key) == s.(objects := docs, hashes := records)
  {
    LinkedIs(s, oid, key);
  }

  /** What is held once a completed object has given its own storage back, unless it is the first. */
  ghost function HeldJoined(held: iset<Cell>, c: Cached, r: Record): iset<Cell> {
    if r.everCount > 1 then held - Cells(ExtentOf(c.place, c.size)) else held
  }

  lemma DiscardGood(s: Sys, oid: Oid, c: Cached, nodes: map<int, S.SnState>, vols: map<int, R.Volume>) returns (t: Sys)
    requires CanHandle(s, oid) && c == View(s, oid) && StoreOk(nodes, vols, s.bytes, s.nodes)
    ensures t == Apply(s, Discard(oid)) && PlaceOk(c.place) && SizeOk(c.size)
            && Cells(ExtentOf(c.place, c.size)) <= s.held
    ensures Good(t, s.digest, s.objects, s.hashes, s.cache, nodes, vols, s.held - Cells(ExtentOf(c.place, c.size)))
  {
    StepKeeps(s, Discard(oid));
    OpenIsHeld(s, oid);
    t := Apply(s, Discard(oid));
  }

  /** The reply has the object's bytes from `offset` on, as many as asked for and there are; it is an
      error exactly if there are none or too many are asked for. */
  ghost predicate Reads(r: ReadReply, bytes: Cell -> Byte, d: Doc, size: int, offset: int) {
    if 0 <= offset < d.size && 0 < size <= CHIP_MAX_SIZE then
      && r.ReadData? && |r.data| == (if offset + size > d.size then d.size - offset else size)
      && (r.cut <==> offset + size > d.size)
      && forall n :: 0 <= n < |r.data| ==> r.data[n] == bytes((d.place.vol, Pos(d.place) + offset + n))
    else r == ReadParamError
  }

  /** What is read of a complete object, byte for byte. */
  lemma ReadBytes(s: Sys, oid: Oid, size: int, offset: int)
    requires Inv(s) && Quiet(s)
    ensures oid !in s.stale && oid in s.cache ==> oid in s.objects && Agrees(s.cache[oid], s.objects[oid])
    ensures oid in s.cache && s.cache[oid].complete ==> oid in s.objects && s.objects[oid].complete
    ensures oid in s.objects && s.objects[oid].complete ==>
              Reads(ObjectRuns.Read(s, oid, size, offset), s.bytes, s.objects[oid], size, offset)
  {
    assert OidOk(s, oid);
    if Finished(s, oid) {
      var d := s.objects[oid];
      ReadIsContent(s, oid, size, offset);
      ExcerptIs(Content(s.bytes, d.place, d.size), size, offset);
    }
  }

  lemma ResizedTables(s: Sys, oid: Oid, newSize: int)
    requires CanHandle(s, oid) && Enabled(s, Resize(oid, newSize))
    ensures var u := Apply(s, Resize(oid, newSize));
            && oid in s.objects && oid in u.objects && u.objects[oid].place == s.objects[oid].place
            && u.objects[oid].size == newSize && u.bytes == s.bytes
            && u.objects == s.objects[oid := u.objects[oid]] && !u.objects[oid].complete && u.hashes == s.hashes
            && oid in u.cache && u.cache[oid].flags == 1
            && u.held == HeldAfter(s.held, s.objects[oid].place, newSize, s.objects[oid].size)
  {
    HandlerView(s, oid);
  }

  /** Of `s` only object `oid` has changed in `t`: it has `data` from `offset` on, as far as that is inside
      it, and a new head. What a resize has noted for the node in the cached entry stays noted. */
  ghost predicate WritesObject(s: Sys, t: Sys, oid: Oid, offset: int, data: seq<Byte>) {
    && oid in s.objects && oid in t.objects && t.objects == s.objects[oid := t.objects[oid]]
    && t.objects[oid] == s.objects[oid].(head := t.objects[oid].head)
    && Overwritten(s.bytes, t.bytes, s.objects[oid], offset, data) && t.hashes == s.hashes && t.held == s.held
    && (data != [] ==> oid in t.cache && t.cache[oid].flags == if oid in s.cache then s.cache[oid].flags else 0)
  }

  lemma NothingWritten(s: Sys, t: Sys, oid: Oid, offset: int)
    requires oid in s.objects && t == s.(cache := t.cache)
    ensures WritesObject(s, t, oid, offset, [])
  {
  }

  lemma WriteBytes(s: Sys, oid: Oid, offset: int, data: seq<Byte>)
    requires CanHandle(s, oid) && Enabled(s, Write(oid, offset, data))
    ensures WritesObject(s, Apply(s, Write(oid, offset, data)), oid, offset, data)
  {
    HandlerView(s, oid);
    ObjectNodes.WriteIs(s, oid, offset, data);
    OverwrittenAll(s.bytes, s.objects[oid], offset, data);
  }

  lemma WritesFromLoaded(s: Sys, oid: Oid, t: Sys, offset: int, data: seq<Byte>)
    requires Inv(s) && Quiet(s) && oid in s.objects && WritesObject(Loaded(s, oid), t, oid, offset, data)
    ensures WritesObject(s, t, oid, offset, data)
  {
    KnowLoaded(s, oid);
    LoadedIs(s, oid);
  }

  /** Looking an object up changes only the cache. */
  lemma KnowLoaded(s: Sys, oid: Oid)
    requires Inv(s) && Quiet(s)
    ensures var t := Loaded(s, oid);
            && t.bytes == s.bytes && t.objects == s.objects && t.stale == s.stale && t.held == s.held
            && t.hashes == s.hashes && (oid in s.objects ==> View(t, oid) == View(s, oid))
            && t.nodes == s.nodes && t.digest == s.digest
            && (oid in s.objects ==> View(t, oid).flags == if oid in s.cache then s.cache[oid].flags else 0)
            && (Finished(t, oid) <==> Finished(s, oid)) && (Finished(s, oid) ==> oid !in s.stale)
  {
    LoadedIs(s, oid);
    assert OidOk(s, oid);
  }

  /** The two states differ at most in other entries of the cache. */
  ghost predicate SameTables(s: Sys, l: Sys, oid: Oid) {
    && oid in s.objects && l.objects == s.objects && l.hashes == s.hashes && l.held == s.held && l.bytes == s.bytes
    && l.nodes == s.nodes && l.digest == s.digest && View(l, oid) == View(s, oid)
  }

  lemma CompletesSame(s: Sys, l: Sys, oid: Oid, t: Sys)
    requires SameTables(s, l, oid) && CompletesObject(l, t, oid)
    ensures CompletesObject(s, t, oid)
  {
  }

  lemma CompletesFromLoaded(s: Sys, oid: Oid, t: Sys)
    requires Inv(s) && Quiet(s) && oid in s.objects && CompletesObject(Loaded(s, oid), t, oid)
    ensures CompletesObject(s, t, oid)
  {
    KnowLoaded(s, oid);
    CompletesSame(s, Loaded(s, oid), oid, t);
  }

  lemma DeletesSame(s: Sys, l: Sys, oid: Oid, t: Sys)
    requires SameTables(s, l, oid) && DeletesObject(l, t, oid)
    ensures DeletesObject(s, t, oid)
  {
  }

  lemma DeletesFromLoaded(s: Sys, oid: Oid, t: Sys)
    requires Inv(s) && Quiet(s) && oid in s.objects && DeletesObject(Loaded(s, oid), t, oid)
    ensures DeletesObject(s, t, oid)
  {
    KnowLoaded(s, oid);
    DeletesSame(s, Loaded(s, oid), oid, t);
  }

  lemma DiscardsFromLoaded(s: Sys, oid: Oid, t: Sys)
    requires Inv(s) && Quiet(s) && oid in s.objects && DiscardsObject(Loaded(s, oid), t, oid)
    ensures DiscardsObject(s, t, oid)
  {
    KnowLoaded(s, oid);
  }

  lemma DeletedEither(s: Sys, oid: Oid, t: Sys)
    requires Inv(s) && Quiet(s) && Known(s, oid) && oid in s.objects
    requires var l := Loaded(s, oid);
             if s.objects[oid].complete then Finished(l, oid) && Deletes(l, oid, t)
             else Enabled(l, Discard(oid)) && t == Apply(l, Discard(oid))
    ensures if s.objects[oid].complete then DeletesObject(s, t, oid) else DiscardsObject(s, t, oid)
  {
    KnowLoaded(s, oid);
    LoadedIs(s, oid);
    if s.objects[oid].complete {
      DeletedLeaves(Loaded(s, oid), oid);
      DeletesFromLoaded(s, oid, t);
    } else {
      DiscardedLeaves(Loaded(s, oid), oid);
      DiscardsFromLoaded(s, oid, t);
    }
  }

  class ApiHandler {
    const regm: RegmHandler
    const digest: seq<Byte> -> string
    /** The cipher of each volume's node. */
    const cipher: int -> C.Ecb
    var objects: map<Oid, Doc>
    var hashes: map<Key, Record>
    var cache: map<Oid, Cached>
    var nodes: map<int, S.SnState>
    /** The same tables with what the allocator has handed out and which oids clients must not use. */
    ghost var sys: Sys

    ghost predicate Valid()
      reads this, regm
    {
      regm.Valid() && Good(sys, digest, objects, hashes, cache, nodes, regm.vols, regm.sys.held)
    }

    constructor (regm: RegmHandler, digest: seq<Byte> -> string, cipher: int -> C.Ecb, nodes: map<int, S.SnState>)
      requires regm.Valid() && regm.sys.held == iset{}
      requires forall v :: v in regm.vols ==>
                 v in nodes && |nodes[v].v| == regm.vols[v].curPosition + regm.vols[v].reserved
      requires forall v :: v in nodes ==> nodes[v].m == map[]
      ensures Valid() && sys == Nothing(digest, BytesOf(nodes), map[]) && this.regm == regm && this.digest == digest
      ensures this.cipher == cipher && this.nodes == nodes
      ensures objects == map[] && hashes == map[] && cache == map[]
    {
      this.regm, this.digest, this.cipher := regm, digest, cipher;
      objects, hashes, cache, this.nodes := map[], map[], map[], nodes;
      sys := Nothing(digest, BytesOf(nodes), map[]);
      EmptyIsGood(digest, BytesOf(nodes), map[]);
      NewStore(nodes, regm.vols);
    }

    /** The tables and the nodes' contents become those of the state `t`. */
    method Become(docs: map<Oid, Doc>, records: map<Key, Record>, entries: map<Oid, Cached>,
                  stored: map<int, S.SnState>, ghost t: Sys)
      requires regm.Valid() && Good(t, digest, docs, records, entries, stored, regm.vols, regm.sys.held)
      modifies this`objects, this`hashes, this`cache, this`nodes, this`sys
      ensures Valid() && sys == t
      ensures objects == docs && hashes == records && cache == entries && nodes == stored
    {
      objects, hashes, cache, nodes, sys := docs, records, entries, stored, t;
    }

    /** `operate_dispersed_cache` up to the handler: the cached entry, else the stored document. */
    method Fetch(oid: Oid, completeOnly: bool) returns (found: bool, c: Cached)
      requires Valid()
      modifies this`cache, this`sys
      ensures Valid()
      ensures found <==> oid in old(cache) || (oid in objects && (completeOnly ==> objects[oid].complete))
      ensures found ==> sys == Loaded(old(sys), oid) && Reachable(sys, oid) && c == View(sys, oid)
      ensures found && oid !in sys.stale ==> oid in objects && Agrees(c, objects[oid]) && DocOk(objects[oid])
      ensures found && oid in sys.stale ==> LeftEntry(c)
      ensures !found ==> sys == old(sys)
    {
      LoadedIs(sys, oid);
      FetchedView(sys, oid);
      if oid in cache { return true, cache[oid]; }
      if oid !in objects || (completeOnly && !objects[oid].complete) {
        return false, Cached(Place(0, 0, 0), 0, false, "", [], 0);
      }
      var doc := objects[oid];
      assert |doc.head| == Min(OBJECT_HEAD_LEN, doc.size) * 2;
      var head := DecodeHex(doc.head);
      c := Cached(doc.place, doc.size, doc.complete, doc.hash, head, 0);
      cache := cache[oid := c];
      sys := Loaded(sys, oid);
      found := true;
    }

    /** The cache may lose an entry at any time. */
    method Lose(oid: Oid)
      requires Valid()
      modifies this`cache, this`sys
      ensures Valid() && sys == Apply(old(sys), Expire(oid))
    {
      StepKeeps(sys, Expire(oid));
      sys := Apply(sys, Expire(oid));
      cache := cache - {oid};
    }

    /** The handler of `Read`. */
    method ReadObject(oid: Oid, c: Cached, size: int, offset: int) returns (r: ReadReply)
      requires Valid() && 0 <= offset && 0 <= size && (c.complete ==> oid in sys.objects && Agrees(c, sys.objects[oid]))
      ensures r == ReplyFor(sys.bytes, c, size, offset)
    {
      if offset >= c.size { return ReadParamError; }
      if !c.complete { return ReadIncompleted; }
      var dataSize := Min(c.size - offset, size);
      var blkIndex, blkOffset := Locate(c.place, offset);
      if dataSize < 1 { return ReadParamError; }
      var pos := BeginPos(blkIndex, blkOffset);
      StoredRead(sys, oid, offset, dataSize, blkIndex, blkOffset, regm.sys, nodes);
      r := ReadData(nodes[c.place.vol].v[pos..pos + dataSize], offset + size > c.size);
    }

    /** Reads bytes of a complete object. */
    method Read(oid: Oid, size: int, offset: int) returns (r: ReadReply)
      requires Valid()
      modifies this`cache, this`sys
      ensures Valid() && (sys == old(sys) || sys == Loaded(old(sys), oid))
      ensures r == ObjectRuns.Read(old(sys), oid, size, offset)
      ensures offset < 0 || size < 0 || size > CHIP_MAX_SIZE ==> r == ReadParamError
      ensures r == ReadNotFound <==>
                && 0 <= offset && 0 <= size <= CHIP_MAX_SIZE && oid !in old(cache)
                && !(oid in old(objects) && old(objects)[oid].complete)
      ensures r == ReadIncompleted <==>
                && 0 <= offset && 0 <= size <= CHIP_MAX_SIZE && oid in old(cache)
                && !old(cache)[oid].complete && offset < old(cache)[oid].size
      ensures r.ReadData? ==> oid in old(objects) && old(objects)[oid].complete
      ensures oid in old(objects) && old(objects)[oid].complete ==> Reads(r, sys.bytes, old(objects)[oid], size, offset)
    {
      ReadRefusedIff(sys, oid, size, offset);
      ReadBytes(sys, oid, size, offset);
      KnowLoaded(sys, oid);
      r := ReadChecked(oid, size, offset);
    }

    method ReadChecked(oid: Oid, size: int, offset: int) returns (r: ReadReply)
      requires Valid()
      modifies this`cache, this`sys
      ensures Valid() && (sys == old(sys) || sys == Loaded(old(sys), oid))
      ensures r == ObjectRuns.Read(old(sys), oid, size, offset)
    {
      if offset < 0 || size > CHIP_MAX_SIZE || size < 0 { return ReadParamError; }
      LoadedIs(sys, oid);
      var found, c := Fetch(oid, true);
      if !found { return ReadNotFound; }
      r := ReadObject(oid, c, size, offset);
    }

    // ----- reading in ciphertext -------------------------------------------------------------------

    /** Reads 16-byte units of a complete object in ciphertext. */
    method ReadBlk(oid: Oid, size: int, offset: int) returns (r: ReadReply)
      requires Valid()
      modifies this`cache, this`sys
      ensures Valid() && (sys == old(sys) || sys == Loaded(old(sys), oid))
      ensures offset < 0 || size > CHIP_MAX_SIZE || size < 0 || size % 16 != 0 || offset % 16 != 0 ==>
                r == ReadParamError
      ensures r == ReadNotFound <==>
                && 0 <= offset && 0 <= size <= CHIP_MAX_SIZE && size % 16 == 0 && offset % 16 == 0
                && oid !in old(cache) && !(oid in old(objects) && old(objects)[oid].complete)
      ensures r == ReadIncompleted <==>
                && 0 <= offset && 0 <= size <= CHIP_MAX_SIZE && size % 16 == 0 && offset % 16 == 0
                && oid in old(cache) && !old(cache)[oid].complete && offset < old(cache)[oid].size
      ensures r.ReadData? ==> oid in old(objects) && old(objects)[oid].complete
      ensures oid in old(objects) && old(objects)[oid].complete && size % 16 == 0 && offset % 16 == 0 ==>
                ReadsUnits(r, old(objects)[oid], nodes, cipher, size, offset)
      ensures Finished(old(sys), oid) && Aligned(size) && Aligned(offset) ==>
                && Stored(old(objects)[oid], regm.vols, nodes)
                && r == Excerpt(Ciphered(old(objects)[oid], regm.vols, nodes, cipher), size, offset)
    {
      KnowStored(oid);
      KnowCached(oid);
      if offset < 0 || size > CHIP_MAX_SIZE || size < 0 { return ReadParamError; }
      if !Aligned(size) || !Aligned(offset) { return ReadParamError; }
      r := ReadBlkChecked(oid, size, offset);
      if Finished(old(sys), oid) {
        ExcerptEncrypted(old(objects)[oid], regm.vols, nodes, cipher, size, offset);
      }
    }

    /** What is cached of a complete document is complete, and of a known one as it says. */
    lemma KnowCached(oid: Oid)
      requires Valid()
      ensures Finished(sys, oid) <==> oid in objects && objects[oid].complete
      ensures Finished(sys, oid) && oid in cache ==> cache[oid].complete && cache[oid].size == objects[oid].size
      ensures oid in cache && cache[oid].complete ==> Finished(sys, oid)
      ensures Finished(sys, oid) ==> 0 < objects[oid].size
    {
      assert OidOk(sys, oid);
    }

    /** The handler of `ReadBlk`. */
    method ReadBlkChecked(oid: Oid, size: int, offset: int) returns (r: ReadReply)
      requires Valid() && 0 <= offset && 0 <= size <= CHIP_MAX_SIZE && Aligned(size) && Aligned(offset)
      modifies this`cache, this`sys
      ensures Valid() && (sys == old(sys) || sys == Loaded(old(sys), oid))
      ensures if Finished(old(sys), oid) then
                && Stored(old(objects)[oid], regm.vols, nodes)
                && r == Excerpt(Ciphered(old(objects)[oid], regm.vols, nodes, cipher), size, offset)
              else if oid !in old(cache) then r == ReadNotFound
              else r == if offset >= old(cache)[oid].size then ReadParamError else ReadIncompleted
    {
      KnowStored(oid);
      var found, c := Fetch(oid, true);
      KnowLoaded(old(sys), oid);
      if !found { return ReadNotFound; }
      KnowFetched(oid, c);
      if offset >= c.size {
        BeyondUnits(c.size, offset);
        return ReadParamError;
      }
      if !c.complete { return ReadIncompleted; }
      r := ReadUnits(c, objects[oid], regm.vols, nodes, cipher, size, offset);
    }

    /** What is found complete is a finished object, and nothing else is. */
    lemma KnowFetched(oid: Oid, c: Cached)
      requires Valid() && Reachable(sys, oid) && c == View(sys, oid)
      requires if oid in sys.stale then LeftEntry(c) else oid in objects && Agrees(c, objects[oid])
      ensures c.complete <==> Finished(sys, oid)
      ensures c.complete ==> c.place == objects[oid].place && c.size == objects[oid].size
    {
      KnowLoaded(sys, oid);
    }

    /** A finished object's units lie on its volume. */
    lemma KnowStored(oid: Oid)
      requires Valid()
      ensures Finished(sys, oid) ==> oid in objects && Stored(objects[oid], regm.vols, nodes)
    {
      if Finished(sys, oid) { FinishedFits(sys, oid, regm.sys, nodes); }
    }

    /** The segments of a complete object: decrypted one by one, its units are its bytes. */
    method GetObjectBlksInfo(oid: Oid) returns (found: bool, vol: int, segs: seq<E.Segment>)
      requires Valid()
      modifies this`cache, this`sys
      ensures Valid() && (sys == old(sys) || sys == Loaded(old(sys), oid))
      ensures found <==> oid in old(cache) || (oid in old(objects) && old(objects)[oid].complete)
      ensures Finished(old(sys), oid) ==>
                && found && vol == old(objects)[oid].place.vol
                && Decrypts(old(objects)[oid], regm.vols, nodes, cipher, segs, old(sys).bytes)
    {
      var c;
      found, c := Fetch(oid, true);
      KnowLoaded(old(sys), oid);
      if !found { return false, 0, []; }
      vol := c.place.vol;
      segs := E.GetObjectBlksInfo(c.place.beginIndex, c.place.beginOffset, c.size);
      KnowDecrypted(oid, c.place, c.size, segs);
    }

    lemma KnowDecrypted(oid: Oid, p: Place, size: int, segs: seq<E.Segment>)
      requires Valid() && E.Tiles(segs, Pos(p), DataAlign(size))
      requires Finished(sys, oid) ==> objects[oid].place == p && objects[oid].size == size
      ensures Finished(sys, oid) ==> Decrypts(objects[oid], regm.vols, nodes, cipher, segs, sys.bytes)
    {
      if Finished(sys, oid) { DecryptsToContent(sys, oid, regm.sys, nodes, cipher, segs); }
    }

    /** The block whose key decrypts the byte at `offset`: that of the segment the byte lies in. */
    method GetObjectBlkKey(oid: Oid, offset: int) returns (r: Option<int>)
      requires Valid()
      modifies this`cache, this`sys
      ensures Valid() && (sys == old(sys) || sys == Loaded(old(sys), oid))
      ensures r.Some? <==>
                if oid in old(cache) then 0 <= offset < old(cache)[oid].size
                else oid in old(objects) && old(objects)[oid].complete && 0 <= offset < old(objects)[oid].size
      ensures Finished(old(sys), oid) && r.Some? ==>
                forall g ::
                  (E.InOneBlock(g, Pos(old(objects)[oid].place)) && g.dataOff <= offset < g.dataOff + g.blkSize)
                  ==> r.value == g.blkIndex
    {
      if offset < 0 { return None; }
      var found, c := Fetch(oid, true);
      KnowLoaded(old(sys), oid);
      if !found { return None; }
      if offset >= c.size { return None; }
      r := Some(BlkIndex(c.place.beginIndex, c.place.beginOffset, PosAlign(offset)));
      KeyOfSegment(c.place, offset);
    }

    // ----- writing ---------------------------------------------------------------------------------

    /** Writes to an object under construction; what lies beyond its end is dropped. */
    method Write(oid: Oid, offset: int, data: seq<Byte>) returns (r: Result)
      requires Valid() && Known(sys, oid)
      modifies this`objects, this`hashes, this`cache, this`nodes, this`sys
      ensures Valid()
      ensures r == ParamError <==>
                || offset < 0 || |data| > CHIP_MAX_SIZE
                || (oid in old(objects) && !old(objects)[oid].complete && offset >= old(objects)[oid].size)
      ensures r == NotFound <==> 0 <= offset && |data| <= CHIP_MAX_SIZE && oid !in old(objects)
      ensures r == AlreadyCompleted <==>
                0 <= offset && |data| <= CHIP_MAX_SIZE && oid in old(objects) && old(objects)[oid].complete
      ensures r == WriteIncomplete <==>
                && 0 <= offset && |data| <= CHIP_MAX_SIZE && oid in old(objects) && !old(objects)[oid].complete
                && offset < old(objects)[oid].size < offset + |data|
      ensures r == ParamError || r == NotFound || r == AlreadyCompleted || r == WriteIncomplete || r == Success
      ensures hashes == old(hashes) && sys.held == old(sys).held
      ensures r == Success || r == WriteIncomplete ==> WritesObject(old(sys), sys, oid, offset, data)
      ensures (r == Success || r == WriteIncomplete) && data != [] ==>
                && Enabled(Loaded(old(sys), oid), ObjectSpec.Write(oid, offset, data))
                && sys == Apply(Loaded(old(sys), oid), ObjectSpec.Write(oid, offset, data))
      ensures !((r == Success || r == WriteIncomplete) && data != []) ==>
                sys == old(sys) || sys == Loaded(old(sys), oid)
    {
      KnowLoaded(sys, oid);
      LoadedIs(sys, oid);
      if offset < 0 || |data| > CHIP_MAX_SIZE { return ParamError; }
      r := WriteChecked(oid, offset, data);
      if r == Success || r == WriteIncomplete {
        if data == [] {
          NothingWritten(old(sys), sys, oid, offset);
        } else {
          WriteBytes(Loaded(old(sys), oid), oid, offset, data);
          WritesFromLoaded(old(sys), oid, sys, offset, data);
        }
      }
    }

    /** The handler of `Write`, up to the nodes and tables. */
    method WriteChecked(oid: Oid, offset: int, data: seq<Byte>) returns (r: Result)
      requires Valid() && Known(sys, oid) && 0 <= offset && |data| <= CHIP_MAX_SIZE
      modifies this`objects, this`hashes, this`cache, this`nodes, this`sys
      ensures Valid()
      ensures r == if oid !in old(objects) then NotFound
                   else if old(objects)[oid].complete then AlreadyCompleted
                   else if offset >= old(objects)[oid].size then ParamError
                   else if offset + |data| > old(objects)[oid].size then WriteIncomplete
                   else Success
      ensures if (r == Success || r == WriteIncomplete) && data != [] then
                && CanHandle(Loaded(old(sys), oid), oid)
                && Enabled(Loaded(old(sys), oid), ObjectSpec.Write(oid, offset, data))
                && sys == Apply(Loaded(old(sys), oid), ObjectSpec.Write(oid, offset, data))
              else sys == old(sys) || sys == Loaded(old(sys), oid)
    {
      LoadedIs(sys, oid);
      KnownView(sys, oid);
      var found, c := Fetch(oid, false);
      if !found { return NotFound; }
      if c.complete { return AlreadyCompleted; }
      if offset >= c.size { return ParamError; }
      if data == [] { return Success; }
      WriteObject(oid, c, offset, data);
      if offset + |data| > c.size { return WriteIncomplete; }
      r := Success;
    }

    /** The handler of `Write`: the head in the table and the cache, the bytes on the node. */
    method WriteObject(oid: Oid, c: Cached, offset: int, data: seq<Byte>)
      requires Valid() && CanHandle(sys, oid) && Enabled(sys, ObjectSpec.Write(oid, offset, data)) && oid in objects
               && c == View(sys, oid)
      modifies this`objects, this`hashes, this`cache, this`nodes, this`sys
      ensures Valid() && sys == Apply(old(sys), ObjectSpec.Write(oid, offset, data))
    {
      var docs, entries, stored, t := Overwrite(oid, c, offset, data);
      Become(docs, hashes, entries, stored, t);
    }

    /** The tables and nodes after the write. */
    method Overwrite(oid: Oid, c: Cached, offset: int, data: seq<Byte>)
      returns (docs: map<Oid, Doc>, entries: map<Oid, Cached>, stored: map<int, S.SnState>, ghost t: Sys)
      requires Valid() && CanHandle(sys, oid) && Enabled(sys, ObjectSpec.Write(oid, offset, data)) && oid in objects
               && c == View(sys, oid)
      ensures t == Apply(sys, ObjectSpec.Write(oid, offset, data))
      ensures Good(t, digest, docs, hashes, entries, stored, regm.vols, regm.sys.held)
    {
      var dataSize := Min(c.size - offset, |data|);
      var part := if dataSize >= |data| then data else data[..dataSize];
      assert part == Clipped(c.size, offset, data);
      var head, doc := PatchHead(objects[oid], c, offset, part);
      stored := WriteData(oid, c, offset, part);
      docs, entries := objects[oid := doc], cache[oid := c.(head := head)];
      t := WriteGood(sys, oid, c, offset, data, part, head, doc, stored, regm.vols);
    }

    /** The head in the document and in the cached entry. */
    method PatchHead(d: Doc, c: Cached, offset: int, part: seq<Byte>) returns (head: seq<Byte>, doc: Doc)
      requires 0 <= offset && 0 < c.size
      ensures head == HeadAfter(c.head, c.size, offset, part)
      ensures doc == if HeadLen(c.size) > offset then d.(head := Bin2Hex(head)) else d
    {
      var headLen := Min(OBJECT_HEAD_LEN, c.size);
      head, doc := c.head, d;
      if headLen > offset {
        head := Resized(head, headLen);
        var appSize := Min(headLen - offset, |part|);
        head := head[..offset] + part[..appSize] + head[offset + appSize..];
        var hex := EncodeHex(head);
        doc := d.(head := hex);
      }
    }

    /** The call of the storage node, which never refuses it. */
    method WriteData(oid: Oid, c: Cached, offset: int, part: seq<Byte>) returns (stored: map<int, S.SnState>)
      requires CanHandle(sys, oid) && c == View(sys, oid) && 0 <= offset < c.size && offset + |part| <= c.size
      requires Backed(sys, regm.sys, nodes) && regm.sys.vols == regm.vols
      ensures StoreOk(stored, regm.vols, Written(sys.bytes, c.place.vol, Pos(Address(c.place, offset)), part),
                      NodesAfter(sys.nodes, c.place, offset, part))
    {
      var blkIndex, blkOffset := Locate(c.place, offset);
      WriteFits(sys, oid, offset, |part|, regm.sys, nodes);
      HandlerView(sys, oid);
      NodeAccepts(c.place, c.size, offset, c.flags);
      assert 0 <= blkOffset <= BLK_SIZE && S.UpdateOk(blkIndex, blkOffset, Context(c));
      WriteIsStored(nodes, regm.vols, sys.bytes, sys.nodes, c, offset, part);
      var node := S.SnStep(nodes[c.place.vol], S.SnWrite(BeginPos(blkIndex, blkOffset), part, Context(c)));
      stored := nodes[c.place.vol := node];
    }

    // ----- creating --------------------------------------------------------------------------------

    /** `add_blk_chip`: gives the storage of `size` bytes at `p` back to the allocator. */
    method AddBlkChip(p: Place, size: int)
      requires regm.Valid() && PlaceOk(p) && SizeOk(size) && Cells(ExtentOf(p, size)) <= regm.sys.held
      modifies regm
      ensures regm.Valid() && regm.vols == old(regm.vols)
              && regm.sys.held == old(regm.sys.held) - Cells(ExtentOf(p, size))
    {
      WholeExtent(p, size);
      var b := R.Blks(p.vol, p.beginIndex, p.beginOffset,
                      BlkIndex(p.beginIndex, p.beginOffset, DataAlign(size)),
                      BlkEndOffset(p.beginIndex, p.beginOffset, DataAlign(size)));
      assert b == WholeBlks(p, size);
      RangeParamsOk(b);
      var r := regm.AddBlkChip(b);
      assert r == Added;
    }

    /** The allocator's reply for a new object of `size` bytes. */
    method AllocateBlks(size: int) returns (ok: bool, p: Place)
      requires regm.Valid() && SizeOk(size)
      modifies regm
      ensures regm.Valid() && SameSizes(old(regm.vols), regm.vols)
      ensures !ok <==>
                && (forall id :: id in old(regm.chips) ==>
                      R.Hi(R.BlksOf(old(regm.chips)[id])) - R.Lo(R.BlksOf(old(regm.chips)[id])) < DataAlign(size))
                && (forall v :: v in old(regm.queue) && v in old(regm.vols) ==>
                      old(regm.vols)[v].reserved < DataAlign(size))
      ensures !ok ==> regm.sys == old(regm.sys)
      ensures ok ==> PlaceOk(p) && Cells(ExtentOf(p, size)) !! old(regm.sys.held)
      ensures ok ==> regm.sys.held == old(regm.sys.held) + Cells(ExtentOf(p, size))
    {
      var a := regm.AllocateBlks(size);
      if a == Regm.NoSpace { return false, Place(0, 0, 0); }
      p := Place(a.blks.vol, a.blks.beginIndex, a.blks.beginOffset);
      assert R.Range(a.blks) == ExtentOf(p, size);
      ok := true;
    }

    /** Takes storage for a new object and enters it in the object table and the cache. When the
        volume's node cannot be reached then, the document and the storage go again, but not the
        cached entry. */
    method CreateObject(oid: Oid, size: int, reachable: bool) returns (r: Result)
      requires Valid()
      modifies this`objects, this`hashes, this`cache, this`nodes, this`sys, regm
      ensures Valid()
      ensures r == ParamError <==> size <= 0 || size > OBJECT_MAX_SIZE
      ensures r == Duplicate <==> 0 < size <= OBJECT_MAX_SIZE && oid in old(objects)
      ensures r == NoRoom <==>
                && 0 < size <= OBJECT_MAX_SIZE && oid !in old(objects)
                && (forall id :: id in old(regm.chips) ==>
                      R.Hi(R.BlksOf(old(regm.chips)[id])) - R.Lo(R.BlksOf(old(regm.chips)[id])) < DataAlign(size))
                && (forall v :: v in old(regm.queue) && v in old(regm.vols) ==>
                      old(regm.vols)[v].reserved < DataAlign(size))
      ensures r == Unreachable <==> !reachable && r != ParamError && r != Duplicate && r != NoRoom
      ensures r == Success || r == ParamError || r == Duplicate || r == NoRoom || r == Unreachable
      ensures r == ParamError || r == Duplicate ==> sys == old(sys)
      ensures r == NoRoom ==> CanAsk(old(sys), oid, size) && sys == NoStorage(old(sys), oid, size) == old(sys)
      ensures r == Success ==> MakesObject(old(sys), sys, oid, size)
      ensures r == Unreachable ==> objects == old(objects) && hashes == old(hashes) && sys.held == old(sys).held
      ensures r == Success ==> exists p :: CanCreate(old(sys), oid, size, p) && sys == Created(old(sys), oid, size, p)
      ensures r == Unreachable ==>
                exists p :: CanCreate(old(sys), oid, size, p) && sys == Aborted(old(sys), oid, size, p)
    {
      if size <= 0 || size > OBJECT_MAX_SIZE { return ParamError; }
      if oid in objects { return Duplicate; }
      var ok, p := AllocateBlks(size);
      SameStore(nodes, old(regm.vols), regm.vols, sys.bytes, sys.nodes);
      if !ok {
        NoStorageIs(sys, oid, size);
        return NoRoom;
      }
      if !reachable {
        AbortedIs(sys, oid, size, p);
        Abandon(oid, p, size);
        return Unreachable;
      }
      CreatedLeaves(sys, oid, size, p);
      Enter(oid, p, size);
      r := Success;
    }

    /** The new object's document and cached entry. */
    method Enter(oid: Oid, p: Place, size: int)
      requires regm.Valid() && CanCreate(sys, oid, size, p)
               && Good(sys, digest, objects, hashes, cache, nodes, regm.vols, sys.held)
      requires regm.sys.held == sys.held + Cells(ExtentOf(p, size))
      modifies this`objects, this`hashes, this`cache, this`nodes, this`sys
      ensures Valid() && sys == Created(old(sys), oid, size, p)
    {
      CreatedIs(sys, oid, size, p);
      var headSize := Min(OBJECT_HEAD_LEN, size);
      var hex := EncodeHex(Zeros(headSize));
      ghost var t := Created(sys, oid, size, p);
      Become(objects[oid := Doc(p, size, false, "", hex)], hashes,
             cache[oid := Cached(p, size, false, "", Zeros(headSize), 0)], nodes, t);
    }

    method Abandon(oid: Oid, p: Place, size: int)
      requires regm.Valid() && CanCreate(sys, oid, size, p)
               && Good(sys, digest, objects, hashes, cache, nodes, regm.vols, sys.held)
      requires regm.sys.held == sys.held + Cells(ExtentOf(p, size))
      modifies this`objects, this`hashes, this`cache, this`nodes, this`sys, regm
      ensures Valid() && sys == Aborted(old(sys), oid, size, p)
    {
      AbortedIs(sys, oid, size, p);
      ghost var e, held := Cells(ExtentOf(p, size)), sys.held;
      assert held + e - e == held;
      AddBlkChip(p, size);
      ghost var t := Aborted(sys, oid, size, p);
      Become(objects, hashes, cache[oid := Cached(p, size, false, "", Zeros(Min(OBJECT_HEAD_LEN, size)), 0)], nodes, t);
    }

    // ----- completing ------------------------------------------------------------------------------

    /** Marks the object complete, counts it in the record of its content, and shares that
        record's storage unless the object is the record's first. */
    method CompleteObject(oid: Oid) returns (r: Result)
      requires Valid() && Known(sys, oid)
      requires oid in objects && !objects[oid].complete ==> Digests(nodes, View(sys, oid))
      modifies this`objects, this`hashes, this`cache, this`nodes, this`sys, regm
      ensures Valid()
      ensures r == if oid !in old(objects) then NotFound else if old(objects)[oid].complete then AlreadyCompleted
              else Success
      ensures r == Success ==> CompletesObject(old(sys), sys, oid)
      ensures r == Success ==> CanHandle(Loaded(old(sys), oid), oid) && sys == Completed(Loaded(old(sys), oid), oid)
      ensures r != Success ==> sys == old(sys) || sys == Loaded(old(sys), oid)
    {
      r := CompleteChecked(oid);
      if r == Success {
        CompletedLeaves(Loaded(old(sys), oid), oid);
        CompletesFromLoaded(old(sys), oid, sys);
      }
    }

    /** The handler of `CompleteObject`. */
    method CompleteChecked(oid: Oid) returns (r: Result)
      requires Valid() && Known(sys, oid)
      requires oid in objects && !objects[oid].complete ==> Digests(nodes, View(sys, oid))
      modifies this`objects, this`hashes, this`cache, this`nodes, this`sys, regm
      ensures Valid()
      ensures r == if oid !in old(objects) then NotFound else if old(objects)[oid].complete then AlreadyCompleted
              else Success
      ensures r == Success ==> CanHandle(Loaded(old(sys), oid), oid) && sys == Completed(Loaded(old(sys), oid), oid)
      ensures r != Success ==> sys == old(sys) || sys == Loaded(old(sys), oid)
    {
      LoadedIs(sys, oid);
      KnownView(sys, oid);
      var found, c := Fetch(oid, false);
      if !found { return NotFound; }
      if c.complete { return AlreadyCompleted; }
      CompleteOpen(oid, c);
      r := Success;
    }

    method CompleteOpen(oid: Oid, c: Cached)
      requires Valid() && CanHandle(sys, oid) && oid in objects && c == View(sys, oid) && Digests(nodes, c)
      modifies this`objects, this`hashes, this`cache, this`nodes, this`sys, regm
      ensures Valid() && sys == Completed(old(sys), oid)
    {
      var docs, records, entries, stored, record, t := CompletedTables(oid, c);
      Share(c, record);
      Become(docs, records, entries, stored, t);
    }

    /** The tables and nodes after the completion, and the record the object has joined. */
    method CompletedTables(oid: Oid, c: Cached)
      returns (docs: map<Oid, Doc>, records: map<Key, Record>, entries: map<Oid, Cached>, stored: map<int, S.SnState>,
               record: Record, ghost t: Sys)
      requires Valid() && CanHandle(sys, oid) && oid in objects && c == View(sys, oid) && Digests(nodes, c)
      ensures t == Completed(sys, oid) && PlaceOk(c.place) && SizeOk(c.size)
              && Cells(ExtentOf(c.place, c.size)) <= regm.sys.held
      ensures Good(t, digest, docs, records, entries, stored, regm.vols, HeldJoined(regm.sys.held, c, record))
    {
      var hash;
      hash, stored := CompleteWrite(oid, c);
      t := CompleteGood(sys, oid, c, hash, stored, regm.vols);
      var key := Key(hash, c.size, objects[oid].head);
      record := if key in hashes then AddRef(hashes[key], 1, 1) else Record(c.place, 1, 1);
      var place := if record.everCount > 1 then record.place else c.place;
      docs, records := objects[oid := objects[oid].(hash := hash, complete := true, place := place)],
          hashes[key := record];
      entries := cache[oid := c.(hash := hash, complete := true, place := place)];
    }

    /** The node's digest of the object; it forgets what it had hashed. */
    method CompleteWrite(oid: Oid, c: Cached) returns (hash: string, stored: map<int, S.SnState>)
      requires CanHandle(sys, oid) && c == View(sys, oid) && Digests(nodes, c) && Backed(sys, regm.sys, nodes)
               && regm.sys.vols == regm.vols
      ensures hash == digest(NodeInput(sys.bytes, sys.nodes, c))
              && StoreOk(stored, regm.vols, sys.bytes, sys.nodes - {c.place})
    {
      HandlerView(sys, oid);
      assert Min(OBJECT_HEAD_LEN, c.size) == |c.head|;
      WriteFits(sys, oid, 0, 0, regm.sys, nodes);
      InputIsStored(nodes, regm.vols, sys.bytes, sys.nodes, c);
      var node := nodes[c.place.vol];
      hash := digest(S.DigestInput(node.v, S.NodeFor(node.m, NodeKey(c.place)), Context(c)));
      stored := nodes[c.place.vol := node.(m := node.m - {NodeKey(c.place)})];
    }

    /** All but the first object with its content give their storage back. */
    method Share(c: Cached, record: Record)
      requires regm.Valid() && PlaceOk(c.place) && SizeOk(c.size) && Cells(ExtentOf(c.place, c.size)) <= regm.sys.held
      modifies regm
      ensures regm.Valid() && regm.vols == old(regm.vols)
      ensures regm.sys.held == HeldJoined(old(regm.sys.held), c, record)
    {
      if record.everCount > 1 { AddBlkChip(c.place, c.size); }
    }

    // ----- deleting --------------------------------------------------------------------------------

    /** A complete object leaves its record; an incomplete one only gives its storage back. */
    method DeleteObject(oid: Oid) returns (r: Result)
      requires Valid() && Known(sys, oid)
      modifies this`objects, this`hashes, this`cache, this`nodes, this`sys, regm
      ensures Valid() && r == if oid !in old(objects) then NotFound else Success
      ensures r == NotFound ==> sys == old(sys)
      ensures r == Success && old(objects)[oid].complete ==> DeletesObject(old(sys), sys, oid)
      ensures r == Success && !old(objects)[oid].complete ==> DiscardsObject(old(sys), sys, oid)
      ensures r == Success && old(objects)[oid].complete ==>
                Finished(Loaded(old(sys), oid), oid) && Deletes(Loaded(old(sys), oid), oid, sys)
      ensures r == Success && !old(objects)[oid].complete ==>
                Enabled(Loaded(old(sys), oid), Discard(oid)) && sys == Apply(Loaded(old(sys), oid), Discard(oid))
    {
      r := DeleteChecked(oid);
      if r == Success { DeletedEither(old(sys), oid, sys); }
    }

    /** The handler of `DeleteObject`. */
    method DeleteChecked(oid: Oid) returns (r: Result)
      requires Valid() && Known(sys, oid)
      modifies this`objects, this`hashes, this`cache, this`nodes, this`sys, regm
      ensures Valid() && r == if oid !in old(objects) then NotFound else Success
      ensures r == NotFound ==> sys == old(sys)
      ensures r == Success && old(objects)[oid].complete ==>
                Finished(Loaded(old(sys), oid), oid) && Deletes(Loaded(old(sys), oid), oid, sys)
      ensures r == Success && !old(objects)[oid].complete ==>
                Enabled(Loaded(old(sys), oid), Discard(oid)) && sys == Apply(Loaded(old(sys), oid), Discard(oid))
    {
      LoadedIs(sys, oid);
      KnownView(sys, oid);
      var found, c := Fetch(oid, false);
      if !found { return NotFound; }
      if !c.complete { DeleteIncomplete(oid, c); } else { DeleteComplete(oid, c); }
      r := Success;
    }

    method DeleteIncomplete(oid: Oid, c: Cached)
      requires Valid() && CanHandle(sys, oid) && c == View(sys, oid)
      modifies this`sys, regm
      ensures Valid() && sys == Apply(old(sys), Discard(oid))
    {
      ghost var t := DiscardGood(sys, oid, c, nodes, regm.vols);
      AddBlkChip(c.place, c.size);
      sys := t;
    }

    method DeleteComplete(oid: Oid, c: Cached)
      requires Valid() && Finished(sys, oid) && c == View(sys, oid)
      modifies this`objects, this`hashes, this`cache, this`nodes, this`sys
      ensures Valid() && Deletes(old(sys), oid, sys)
    {
      DeletedIs(sys, oid);
      ghost var t := Deleted(sys, oid);
      var hex := EncodeHex(c.head);
      var key := Key(c.hash, c.size, hex);
      var records := if key in hashes then hashes[key := AddRef(hashes[key], -1, 0)] else hashes;
      Become(objects - {oid}, records, cache - {oid}, nodes, t);
    }

    // ----- resizing --------------------------------------------------------------------------------

    /** Shrinks an object under construction and gives the units it no longer needs back. */
    method ResizeObject(oid: Oid, newSize: int) returns (r: Result)
      requires Valid() && Known(sys, oid)
      modifies this`objects, this`hashes, this`cache, this`nodes, this`sys, regm
      ensures Valid()
      ensures r == ParamError <==>
                || newSize <= 0 || newSize > OBJECT_MAX_SIZE
                || (oid in old(objects) && !old(objects)[oid].complete && old(objects)[oid].size < newSize)
      ensures r == NotFound <==> 0 < newSize <= OBJECT_MAX_SIZE && oid !in old(objects)
      ensures r == AlreadyCompleted <==>
                0 < newSize <= OBJECT_MAX_SIZE && oid in old(objects) && old(objects)[oid].complete
      ensures r == ParamError || r == NotFound || r == AlreadyCompleted || r == Success
      ensures r == Success ==>
                && oid in old(objects) && oid in objects && objects[oid].place == old(objects)[oid].place
                && objects[oid].size == newSize && sys.bytes == old(sys).bytes
                && objects == old(objects)[oid := objects[oid]] && !objects[oid].complete && hashes == old(hashes)
                && sys.held == HeldAfter(old(sys).held, objects[oid].place, newSize, old(objects)[oid].size)
      ensures r == Success && old(objects)[oid].size != newSize ==> oid in cache && cache[oid].flags == 1
      ensures r == Success && old(objects)[oid].size != newSize ==>
                && Enabled(Loaded(old(sys), oid), Resize(oid, newSize))
                && sys == Apply(Loaded(old(sys), oid), Resize(oid, newSize))
      ensures r != Success || old(objects)[oid].size == newSize ==> sys == old(sys) || sys == Loaded(old(sys), oid)
    {
      KnowLoaded(sys, oid);
      if newSize <= 0 || newSize > OBJECT_MAX_SIZE { return ParamError; }
      r := ResizeChecked(oid, newSize);
      if r == Success {
        AlignUp(newSize);
        if old(objects)[oid].size != newSize { ResizedTables(Loaded(old(sys), oid), oid, newSize); }
      }
    }

    /** The handler of `ResizeObject`. */
    method ResizeChecked(oid: Oid, newSize: int) returns (r: Result)
      requires Valid() && Known(sys, oid) && 0 < newSize <= OBJECT_MAX_SIZE
      modifies this`objects, this`hashes, this`cache, this`nodes, this`sys, regm
      ensures Valid()
      ensures r == if oid !in old(objects) then NotFound
                   else if old(objects)[oid].complete then AlreadyCompleted
                   else if old(objects)[oid].size < newSize then ParamError
                   else Success
      ensures if r == Success && old(objects)[oid].size != newSize then
                && CanHandle(Loaded(old(sys), oid), oid) && Enabled(Loaded(old(sys), oid), Resize(oid, newSize))
                && sys == Apply(Loaded(old(sys), oid), Resize(oid, newSize))
              else sys == old(sys) || sys == Loaded(old(sys), oid)
    {
      LoadedIs(sys, oid);
      KnownView(sys, oid);
      var found, c := Fetch(oid, false);
      if !found { return NotFound; }
      if c.complete { return AlreadyCompleted; }
      if c.size < newSize { return ParamError; }
      if c.size == newSize { return Success; }
      ResizeOpen(oid, c, newSize);
      r := Success;
    }

    method ResizeOpen(oid: Oid, c: Cached, newSize: int)
      requires Valid() && CanHandle(sys, oid) && Enabled(sys, Resize(oid, newSize)) && oid in objects
               && c == View(sys, oid)
      modifies this`objects, this`hashes, this`cache, this`nodes, this`sys, regm
      ensures Valid() && sys == Apply(old(sys), Resize(oid, newSize))
    {
      var doc, entry := Shrunk(objects[oid], c, newSize);
      ghost var t := ResizeGood(sys, oid, c, newSize, entry.head, nodes, regm.vols);
      FreeSuffix(c.place, newSize, c.size);
      Become(objects[oid := doc], hashes, cache[oid := entry], nodes, t);
    }

    method Shrunk(d: Doc, c: Cached, newSize: int) returns (doc: Doc, entry: Cached)
      requires 0 < newSize
      ensures var head := Resized(c.head, HeadLen(newSize));
              doc == d.(size := newSize, head := Bin2Hex(head))
                  && entry == c.(size := newSize, head := head, flags := 1)
    {
      var head := c.head;
      assert head == c.head[..|c.head|];
      if Min(OBJECT_HEAD_LEN, newSize) != |c.head| { head := Resized(c.head, Min(OBJECT_HEAD_LEN, newSize)); }
      var hex := EncodeHex(head);
      doc, entry := d.(size := newSize, head := hex), c.(size := newSize, head := head, flags := 1);
    }

    /** Gives back the aligned units after the first `newSize` bytes, if there are any. */
    method FreeSuffix(p: Place, newSize: int, oldSize: int)
      requires regm.Valid() && PlaceOk(p) && 0 < newSize && Cells(Rest(p, newSize, oldSize)) <= regm.sys.held
      modifies regm
      ensures regm.Valid() && regm.vols == old(regm.vols)
      ensures regm.sys.held == HeldAfter(old(regm.sys.held), p, newSize, oldSize)
    {
      var newPos, oldPos := DataAlign(newSize), DataAlign(oldSize);
      if newPos >= oldSize { return; }
      AlignUp(oldSize);
      RestExtent(p, newSize, oldSize);
      var b := R.Blks(p.vol, BlkIndex(p.beginIndex, p.beginOffset, newPos),
                      BlkEndOffset(p.beginIndex, p.beginOffset, newPos),
                      BlkIndex(p.beginIndex, p.beginOffset, oldPos), BlkEndOffset(p.beginIndex, p.beginOffset, oldPos));
      assert b == RestBlks(p, newSize, oldSize);
      RangeParamsOk(b);
      var r := regm.AddBlkChip(b);
      assert r == Added;
    }

    // ----- linking ---------------------------------------------------------------------------------

    /** A new object for known content; a taken oid undoes the count, all but `everCount`. */
    method CreateObjectLink(oid: Oid, hash: string, size: int, head: seq<Byte>) returns (r: Result)
      requires Valid() && oid !in sys.stale
      modifies this`objects, this`hashes, this`cache, this`nodes, this`sys
      ensures Valid()
      ensures r == ParamError <==> size <= 0 || size > OBJECT_MAX_SIZE || |head| > 16
      ensures var key := Key(hash, size, Bin2Hex(head));
              && (r == NotFound <==> 0 < size <= OBJECT_MAX_SIZE && |head| <= 16 && key !in old(hashes))
              && (r == Duplicate <==>
                   0 < size <= OBJECT_MAX_SIZE && |head| <= 16 && key in old(hashes) && oid in old(objects))
              && (r == Success || r == Duplicate ==>
                   && LinksObject(old(sys), sys, oid, key)
                   && Quiet(old(sys)) && sys == Linked(old(sys), oid, key))
      ensures r == Success || r == ParamError || r == NotFound || r == Duplicate
      ensures r == ParamError || r == NotFound ==> sys == old(sys)
    {
      if size <= 0 || size > OBJECT_MAX_SIZE || |head| > OBJECT_HEAD_LEN { return ParamError; }
      var hex := EncodeHex(head);
      var key := Key(hash, size, hex);
      if key !in hashes { return NotFound; }
      LinkedLeaves(sys, oid, key);
      r := LinkKnown(oid, key);
    }

    method LinkKnown(oid: Oid, key: Key) returns (r: Result)
      requires Valid() && oid !in sys.stale && key in hashes
      modifies this`objects, this`hashes, this`cache, this`nodes, this`sys
      ensures Valid() && r == if oid in old(objects) then Duplicate else Success
      ensures Quiet(old(sys)) && sys == Linked(old(sys), oid, key)
    {
      var docs, records, t := LinkTables(oid, key);
      r := if oid in objects then Duplicate else Success;
      Become(docs, records, cache, nodes, t);
    }

    /** The count goes up; for a taken oid it goes down again, otherwise the document is inserted. */
    method LinkTables(oid: Oid, key: Key) returns (docs: map<Oid, Doc>, records: map<Key, Record>, ghost t: Sys)
      requires Valid() && oid !in sys.stale && key in hashes
      ensures Quiet(sys) && t == Linked(sys, oid, key)
      ensures Good(t, digest, docs, records, cache, nodes, regm.vols, regm.sys.held)
    {
      var record := AddRef(hashes[key], 1, 1);
      docs, records := objects, hashes[key := record];
      if oid in objects {
        records := records[key := AddRef(record, -1, 0)];
      } else {
        docs := objects[oid := Doc(record.place, key.size, true, key.hash, key.head)];
      }
      t := LinkGood(sys, oid, key, docs, records, nodes, regm.vols);
    }
  }

  /** `t` is the state after deleting the complete object `oid`. */
  ghost predicate Deletes(s: Sys, oid: Oid, t: Sys) {
    oid in s.objects && Reachable(s, oid) && View(s, oid).complete && t == Deleted(s, oid)
  }

  ghost function BytesOf(nodes: map<int, S.SnState>): Cell -> Byte {
    (c: Cell) => if c.0 in nodes && 0 <= c.1 < |nodes[c.0].v| then nodes[c.0].v[c.1] else 0
  }

  lemma NewStore(nodes: map<int, S.SnState>, vols: map<int, R.Volume>)
    requires forall v :: v in vols ==> v in nodes && |nodes[v].v| == vols[v].curPosition + vols[v].reserved
    requires forall v :: v in nodes ==> nodes[v].m == map[]
    ensures StoreOk(nodes, vols, BytesOf(nodes), map[])
  {
  }
}
