/**
 The object layer (bfss_api/bfss_api.cpp) as a protocol over single operations of its databases,
 its cache and the storage nodes: any number of calls interleaved. A call that works on an
 existing object holds that object's lock; `CreateObject` and `CreateObjectLink` do not.
 */
module ObjectSpec {
  import opened Layout
  import opened Ownership
  import opened HexCodec
  import S = StorageSpec

  type Oid = string

  datatype Option<T> = None | Some(value: T)

  datatype Place = Place(vol: int, beginIndex: int, beginOffset: int)

  /** A document of the object table; `hash` and `head` are hexadecimal. */
  datatype Doc = Doc(place: Place, size: int, complete: bool, hash: string, head: string)

  /** The key of the hash table. */
  datatype Key = Key(hash: string, size: int, head: string)

  /** A document of the hash table; `everCount` (`_RefCount`) only grows. */
  datatype Record = Record(place: Place, refCount: int, everCount: int)

  /** An entry of the object cache; `flags` is part of the context sent to the node. */
  datatype Cached = Cached(place: Place, size: int, complete: bool, hash: string, head: seq<Byte>, flags: int)

  /** Where the call holding an object's lock has got to. */
  datatype Phase =
    | Marked(entry: Cached, key: Key)
    | Joined(entry: Cached, key: Key, first: bool)
    | Freed(entry: Cached, key: Key)
    | Deleting(key: Key)

  /** Where a `CreateObject` has got to: its oid is in the table, storage is allocated, the document
      is filled, the cached entry is written; or the document is deleted again, because there is no
      storage or because the volume's node cannot be reached. */
  datatype Stage =
    | Reserved
    | Refused
    | Allotted(place: Place)
    | Filled(place: Place)
    | Entered(place: Place)
    | Dropped(place: Place)

  datatype Call =
    | Creating(oid: Oid, size: int, stage: Stage)
    | Linking(oid: Oid, key: Key, inserted: bool)

  /** The call that is bringing an oid into the table: a `CreateObject` until it returns, or a
      `CreateObjectLink` that has inserted it. */
  datatype Maker = Creation(pid: nat) | Link(pid: nat)

  datatype Sys = Sys(
    digest: seq<Byte> -> string,
    objects: map<Oid, Doc>,
    bare: set<Oid>,
    hashes: map<Key, Record>,
    cache: map<Oid, Cached>,
    busy: map<Oid, Phase>,
    calls: map<nat, Call>,
    ghost bytes: Cell -> Byte,
    ghost nodes: map<Place, S.HashNode>,
    ghost held: iset<Cell>,
    ghost making: map<Oid, Maker>,
    ghost dead: set<Oid>,
    ghost stale: set<Oid>)

  // ----- parts of documents --------------------------------------------------------------------

  function Pos(p: Place): int { BeginPos(p.beginIndex, p.beginOffset) }

  /** The storage allocated for `size` bytes at `p`. */
  function ExtentOf(p: Place, size: int): Extent { Extent(p.vol, Pos(p), Pos(p) + DataAlign(size)) }

  /** Where the byte at `offset` of an object at `p` is sent: the block of the 16-byte unit it
      lies in, and the offset of the byte itself. */
  function Address(p: Place, offset: int): Place {
    Place(p.vol, BlkIndex(p.beginIndex, p.beginOffset, PosAlign(offset)), OffsetOf(Pos(p) + offset))
  }

  function HeadLen(size: int): int { Min(OBJECT_HEAD_LEN, size) }

  function KeyOf(d: Doc): Key { Key(d.hash, d.size, d.head) }

  function Decode(d: Doc): Cached { Cached(d.place, d.size, d.complete, d.hash, Hex2Bin(d.head), 0) }

  function Zeros(n: nat): (s: seq<Byte>)
    ensures |s| == n && forall i :: 0 <= i < n ==> s[i] == 0
  {
    seq(n, _ => 0)
  }

  /** `head.resize`. */
  function Resized(head: seq<Byte>, n: nat): (r: seq<Byte>)
    ensures |r| == n
  {
    if n <= |head| then head[..n] else head + Zeros(n - |head|)
  }

  /** The document and the cached entry of a new object. */
  function NewDoc(p: Place, size: int): Doc
    requires 0 < size
  {
    Doc(p, size, false, "", Bin2Hex(Zeros(HeadLen(size))))
  }

  function NewEntry(p: Place, size: int): Cached
    requires 0 < size
  {
    Cached(p, size, false, "", Zeros(HeadLen(size)), 0)
  }

  /** The document of a new object of a known record. */
  function LinkedDoc(r: Record, key: Key): Doc { Doc(r.place, key.size, true, key.hash, key.head) }

  // ----- the storage ------------------------------------------------------------------------------

  ghost function Stretch(bytes: Cell -> Byte, vol: int, at: int, n: int): (s: seq<Byte>)
    requires 0 <= n
    ensures |s| == n && forall i :: 0 <= i < n ==> s[i] == bytes((vol, at + i))
  {
    seq(n, i requires 0 <= i < n => bytes((vol, at + i)))
  }

  /** The `size` bytes at `p`. */
  ghost function Content(bytes: Cell -> Byte, p: Place, size: int): (s: seq<Byte>)
    requires 0 <= size
    ensures |s| == size && forall i :: 0 <= i < size ==> s[i] == bytes((p.vol, Pos(p) + i))
  {
    Stretch(bytes, p.vol, Pos(p), size)
  }

  ghost function Written(bytes: Cell -> Byte, vol: int, at: int, data: seq<Byte>): (r: Cell -> Byte)
    ensures forall c: Cell :: r(c) == if c.0 == vol && at <= c.1 < at + |data| then data[c.1 - at] else bytes(c)
  {
    (c: Cell) => if c.0 == vol && at <= c.1 < at + |data| then data[c.1 - at] else bytes(c)
  }

  /** What the node of the object at `p` has hashed so far. */
  function NodeAt(nodes: map<Place, S.HashNode>, p: Place): S.HashNode {
    if p in nodes then nodes[p] else S.HashNode([], 0)
  }

  /** The context a handler sends: `build_cache_context`. */
  function Context(c: Cached): S.Obi { S.Obi(c.place.beginIndex, c.place.beginOffset, c.size, c.flags) }

  /** What the node digests when the object of entry `c` is completed. */
  ghost function NodeInput(bytes: Cell -> Byte, nodes: map<Place, S.HashNode>, c: Cached): seq<Byte> {
    var n, o := NodeAt(nodes, c.place), Context(c);
    if S.Remaining(n, o) <= 0 then n.fed
    else n.fed + Stretch(bytes, c.place.vol, S.ResumePos(n, o), S.Remaining(n, o))
  }

  // ----- who owns which extent -------------------------------------------------------------------

  datatype Owner = OfObject(oid: Oid) | OfRecord(key: Key) | OfCall(pid: nat)

  /** The call has marked the object complete but its extent has not yet gone to a record or back. */
  predicate Unsettled(busy: map<Oid, Phase>, oid: Oid) {
    oid in busy && (busy[oid].Marked? || (busy[oid].Joined? && !busy[oid].first))
  }

  predicate HoldsExtent(c: Call) { c.Creating? && (c.stage.Allotted? || c.stage.Dropped?) }

  ghost predicate IsOwner(s: Sys, k: Owner) {
    match k
    case OfObject(oid) => oid in s.objects && oid !in s.dead && (!s.objects[oid].complete || Unsettled(s.busy, oid))
    case OfRecord(key) => key in s.hashes
    case OfCall(pid) => pid in s.calls && HoldsExtent(s.calls[pid])
  }

  ghost function OwnedBy(s: Sys, k: Owner): Extent
    requires IsOwner(s, k)
  {
    match k
    case OfObject(oid) => ExtentOf(s.objects[oid].place, s.objects[oid].size)
    case OfRecord(key) => ExtentOf(s.hashes[key].place, key.size)
    case OfCall(pid) => ExtentOf(s.calls[pid].stage.place, s.calls[pid].size)
  }

  ghost function Owners(s: Sys): (r: set<Owner>)
    ensures forall k :: k in r <==> IsOwner(s, k)
  {
    var objects, keys := set oid | oid in s.objects :: OfObject(oid), set key | key in s.hashes :: OfRecord(key);
    var all := objects + keys + (set pid | pid in s.calls :: OfCall(pid));
    set k | k in all && IsOwner(s, k)
  }

  ghost function Claims(s: Sys): (m: map<Owner, Extent>)
    ensures forall k :: k in m <==> IsOwner(s, k)
    ensures forall k :: k in m ==> m[k] == OwnedBy(s, k)
  {
    map k | k in Owners(s) :: OwnedBy(s, k)
  }

  // ----- who counts in a record ------------------------------------------------------------------

  datatype Referrer = ByObject(oid: Oid) | ByLink(pid: nat) | ByDelete(oid: Oid)

  /** The key object `oid` counts for. */
  function CountedKey(s: Sys, oid: Oid): Option<Key> {
    if oid in s.objects && s.objects[oid].complete && !(oid in s.busy && s.busy[oid].Marked?)
        then Some(KeyOf(s.objects[oid]))
    else None
  }

  /** The key a delete of `oid` still counts for. */
  function DeletedKey(s: Sys, oid: Oid): Option<Key> {
    if oid in s.busy && s.busy[oid].Deleting? then Some(s.busy[oid].key) else None
  }

  /** The key call `pid` counts for. */
  function LinkedKey(s: Sys, pid: nat): Option<Key> {
    if pid in s.calls && s.calls[pid].Linking? then Some(s.calls[pid].key) else None
  }

  ghost predicate Refers(s: Sys, key: Key, r: Referrer) {
    match r
    case ByObject(oid) => CountedKey(s, oid) == Some(key)
    case ByLink(pid) => LinkedKey(s, pid) == Some(key)
    case ByDelete(oid) => DeletedKey(s, oid) == Some(key)
  }

  ghost function Referrers(s: Sys, key: Key): (r: set<Referrer>)
    ensures forall x :: x in r <==> Refers(s, key, x)
  {
    var objects, links := set oid | oid in s.objects :: ByObject(oid), set pid | pid in s.calls :: ByLink(pid);
    var all := objects + links + (set oid | oid in s.busy :: ByDelete(oid));
    set x | x in all && Refers(s, key, x)
  }

  /** The object table has a document with the oid. */
  predicate Taken(s: Sys, oid: Oid) { oid in s.objects || oid in s.bare }

  // ----- the invariant -----------------------------------------------------------------------------

  predicate PlaceOk(p: Place) { Canonical(p.beginIndex, p.beginOffset) }

  /** A head is the hexadecimal form of the first bytes, up to sixteen. */
  predicate HeadOk(head: string, size: int) { IsHex(head) && |head| == 2 * HeadLen(size) }

  predicate DocOk(d: Doc) { PlaceOk(d.place) && SizeOk(d.size) && HeadOk(d.head, d.size) }

  predicate RecordOk(key: Key, r: Record)
  {
    PlaceOk(r.place) && SizeOk(key.size) && HeadOk(key.head, key.size) && 1 <= r.everCount
  }

  predicate Agrees(c: Cached, d: Doc) {
    && c.place == d.place && c.size == d.size && c.complete == d.complete && c.hash == d.hash
    && Bin2Hex(c.head) == d.head && |c.head| == HeadLen(d.size)
  }

  predicate Completing(busy: map<Oid, Phase>, oid: Oid) { oid in busy && !busy[oid].Deleting? }

  /** The record of key `key` is at `p`. */
  predicate RecordAt(hashes: map<Key, Record>, key: Key, p: Place) { key in hashes && hashes[key].place == p }

  /** A `CreateObject` of the oid has not returned. */
  ghost predicate BeingCreated(s: Sys, oid: Oid) { oid in s.making && s.making[oid].Creation? }

  /** A `CreateObjectLink` of the oid has not returned. */
  predicate LinkPending(s: Sys, oid: Oid) {
    exists pid :: pid in s.calls && s.calls[pid].Linking? && s.calls[pid].oid == oid
  }

  /** The client may work on the object: its creation has returned and did not fail, and it was not
      deleted before completion. */
  ghost predicate Usable(s: Sys, oid: Oid) { oid !in s.making && oid !in s.dead && oid !in s.stale }

  ghost predicate PhaseOk(s: Sys, oid: Oid)
    requires oid in s.busy
  {
    match s.busy[oid]
    case Marked(entry, key) => WorksOn(s, oid, entry, key)
    case Joined(entry, key, first) =>
      WorksOn(s, oid, entry, key) && key in s.hashes && (first ==> s.hashes[key].place == entry.place)
    case Freed(entry, key) => WorksOn(s, oid, entry, key) && key in s.hashes
    case Deleting(key) => key in s.hashes
  }

  /** A completing call's own entry agrees with the object it has marked. */
  ghost predicate WorksOn(s: Sys, oid: Oid, entry: Cached, key: Key) {
    && Usable(s, oid) && oid in s.objects && s.objects[oid].complete
    && Agrees(entry, s.objects[oid]) && KeyOf(s.objects[oid]) == key
  }

  /** The documents, the lock and the cached entry of one object fit together. */
  ghost predicate OidOk(s: Sys, oid: Oid) {
    && (oid in s.objects ==> DocOk(s.objects[oid]) && oid !in s.bare && SettledAt(s, oid))
    && (oid in s.objects && s.objects[oid].complete ==> Usable(s, oid))
    && (oid in s.busy ==> PhaseOk(s, oid))
    && (oid in s.cache && oid !in s.busy && oid !in s.stale ==>
         oid in s.objects && Agrees(s.cache[oid], s.objects[oid]))
    && (oid in s.stale ==> oid !in s.busy && (oid in s.cache ==> LeftEntry(s.cache[oid])))
    && (oid in s.dead ==> oid in s.objects && !s.objects[oid].complete && oid !in s.busy && oid !in s.making)
  }

  /** The cached entry of an oid whose creation failed: that of an incomplete object. */
  predicate LeftEntry(c: Cached) { !c.complete && PlaceOk(c.place) && SizeOk(c.size) }

  /** A finished complete object lies where its record says. */
  ghost predicate SettledAt(s: Sys, oid: Oid)
    requires oid in s.objects
  {
    s.objects[oid].complete && !Completing(s.busy, oid) ==>
      RecordAt(s.hashes, KeyOf(s.objects[oid]), s.objects[oid].place)
  }

  ghost predicate Makes(s: Sys, m: Maker, oid: Oid) { oid in s.making && s.making[oid] == m }

  ghost predicate IsNew(s: Sys, pid: nat, oid: Oid, p: Place, size: int)
    requires SizeOk(size)
  {
    Makes(s, Creation(pid), oid) && oid in s.objects && s.objects[oid] == NewDoc(p, size)
  }

  ghost predicate CallOk(s: Sys, pid: nat)
    requires pid in s.calls
  {
    match s.calls[pid]
    case Creating(oid, size, stage) =>
      && SizeOk(size)
      && (match stage
          case Reserved => oid in s.bare && Makes(s, Creation(pid), oid)
          case Refused => !Taken(s, oid) && Makes(s, Creation(pid), oid)
          case Allotted(p) => PlaceOk(p) && oid in s.bare && Makes(s, Creation(pid), oid)
          case Filled(p) => PlaceOk(p) && IsNew(s, pid, oid, p, size)
          case Entered(p) => PlaceOk(p) && IsNew(s, pid, oid, p, size) && oid !in s.busy && oid !in s.stale
          case Dropped(p) => PlaceOk(p))
    case Linking(oid, key, inserted) =>
      && key in s.hashes && oid !in s.stale && !BeingCreated(s, oid)
      && (inserted ==> oid in s.bare && Makes(s, Link(pid), oid) && oid !in s.objects)
  }

  ghost predicate TablesOk(s: Sys) {
    && (forall oid: Oid :: OidOk(s, oid))
    && (forall key :: key in s.hashes ==> RecordOk(key, s.hashes[key]))
    && (forall pid :: pid in s.calls ==> CallOk(s, pid))
  }

  ghost predicate Owned(s: Sys) { Covers(Claims(s), s.held) }

  /** A record counts the complete objects with its key, and the calls about to add or remove one. */
  ghost predicate Counted(s: Sys) { forall key :: key in s.hashes ==> s.hashes[key].refCount == |Referrers(s, key)| }

  ghost predicate Inv(s: Sys) { TablesOk(s) && Owned(s) && Counted(s) }

  // ----- the steps -----------------------------------------------------------------------------------

  datatype Step =
    | BeginCreate(pid: nat, oid: Oid, size: int)
    | Refuse(pid: nat)
    | Withdraw(pid: nat)
    | Allot(pid: nat, place: Place)
    | Fill(pid: nat)
    | Enter(pid: nat)
    | Return(pid: nat)
    | AbortDoc(pid: nat)
    | AbortFree(pid: nat)
    | Load(oid: Oid)
    | Expire(oid: Oid)
    | Write(oid: Oid, offset: int, data: seq<Byte>)
    | Resize(oid: Oid, newSize: int)
    | Mark(oid: Oid)
    | Join(oid: Oid)
    | FreeOwn(oid: Oid)
    | Adopt(oid: Oid)
    | BeginLink(pid: nat, oid: Oid, key: Key)
    | InsertLink(pid: nat)
    | FillLink(pid: nat)
    | UndoLink(pid: nat)
    | Unlink(oid: Oid)
    | Forget(oid: Oid)
    | Discard(oid: Oid)

  predicate IsCreation(t: Step) {
    || t.BeginCreate? || t.Refuse? || t.Withdraw? || t.Allot? || t.Fill? || t.Enter? || t.Return?
    || t.AbortDoc? || t.AbortFree?
  }

  predicate IsLink(t: Step) { t.BeginLink? || t.InsertLink? || t.FillLink? || t.UndoLink? }

  predicate IsHandler(t: Step) {
    t.Load? || t.Expire? || t.Write? || t.Resize? || t.Mark? || t.Unlink? || t.Discard?
  }

  predicate IsPhase(t: Step) { t.Join? || t.FreeOwn? || t.Adopt? || t.Forget? }

  /** What `operate_dispersed_cache` hands to a handler: the cached entry, or the decoded document. */
  function View(s: Sys, oid: Oid): Cached
    requires oid in s.cache || oid in s.objects
  {
    if oid in s.cache then s.cache[oid] else Decode(s.objects[oid])
  }

  /** A handler can run: it finds the object and gets its lock. */
  predicate Reachable(s: Sys, oid: Oid) { (oid in s.cache || oid in s.objects) && oid !in s.busy }

  /** ... and finds it incomplete. */
  predicate Open(s: Sys, oid: Oid) { Reachable(s, oid) && !View(s, oid).complete }

  predicate CreatingAt(s: Sys, pid: nat) { pid in s.calls && s.calls[pid].Creating? && 0 < s.calls[pid].size }

  predicate LinkingAt(s: Sys, pid: nat) { pid in s.calls && s.calls[pid].Linking? && s.calls[pid].key in s.hashes }

  /** What the code lets happen next. */
  ghost predicate Enabled(s: Sys, t: Step) {
    match t
    case BeginCreate(pid, oid, size) => pid !in s.calls && !Taken(s, oid) && SizeOk(size)
    case Refuse(pid) => CreatingAt(s, pid) && s.calls[pid].stage.Reserved?
    case Withdraw(pid) => CreatingAt(s, pid) && (s.calls[pid].stage.Reserved? || s.calls[pid].stage.Refused?)
    case Allot(pid, place) =>
      && CreatingAt(s, pid) && s.calls[pid].stage.Reserved?
      && PlaceOk(place) && Cells(ExtentOf(place, s.calls[pid].size)) !! s.held
    case Fill(pid) => CreatingAt(s, pid) && s.calls[pid].stage.Allotted? && Taken(s, s.calls[pid].oid)
    case Enter(pid) => CreatingAt(s, pid) && s.calls[pid].stage.Filled? && s.calls[pid].oid !in s.busy
    case Return(pid) => CreatingAt(s, pid) && s.calls[pid].stage.Entered?
    case AbortDoc(pid) => CreatingAt(s, pid) && s.calls[pid].stage.Entered?
    case AbortFree(pid) => CreatingAt(s, pid) && s.calls[pid].stage.Dropped?
    case Load(oid) => oid in s.objects && oid !in s.busy && oid !in s.cache
    case Expire(oid) => true
    case Write(oid, offset, data) => Open(s, oid) && 0 <= offset < View(s, oid).size && data != []
    case Resize(oid, newSize) => Open(s, oid) && 0 < newSize < View(s, oid).size
    case Mark(oid) => Open(s, oid) && oid in s.objects
    case Join(oid) => oid in s.busy && s.busy[oid].Marked?
    case FreeOwn(oid) => oid in s.busy && s.busy[oid].Joined? && !s.busy[oid].first
    case Adopt(oid) =>
      && oid in s.busy && oid in s.objects && (s.busy[oid].Freed? || (s.busy[oid].Joined? && s.busy[oid].first))
      && s.busy[oid].key in s.hashes
    case BeginLink(pid, oid, key) => pid !in s.calls && key in s.hashes
    case InsertLink(pid) => LinkingAt(s, pid) && !s.calls[pid].inserted && !Taken(s, s.calls[pid].oid)
    case FillLink(pid) => LinkingAt(s, pid) && s.calls[pid].inserted
    case UndoLink(pid) => LinkingAt(s, pid) && !s.calls[pid].inserted && Taken(s, s.calls[pid].oid)
    case Unlink(oid) => Reachable(s, oid) && View(s, oid).complete
    case Forget(oid) => oid in s.busy && s.busy[oid].Deleting?
    case Discard(oid) => Open(s, oid)
  }

  /** What a careful client does: it works on an oid only after the call that makes it has returned
      success, and never after deleting it incomplete; it creates or links no oid while a
      `CreateObject` of it has not returned, creates none while a link of it has not returned,
      and links none whose creation failed. */
  ghost predicate Polite(s: Sys, t: Step) {
    match t
    case BeginCreate(_, oid, _) => !BeingCreated(s, oid) && !LinkPending(s, oid)
    case BeginLink(_, oid, _) => !BeingCreated(s, oid) && oid !in s.stale
    case Write(oid, _, _) => Usable(s, oid)
    case Resize(oid, _) => Usable(s, oid)
    case Mark(oid) => Usable(s, oid)
    case Unlink(oid) => Usable(s, oid)
    case Discard(oid) => Usable(s, oid)
    case _ => true
  }

  /** The part of `data` a write at `offset` stores: it is cut at the object's end. */
  function Clipped(size: int, offset: int, data: seq<Byte>): (r: seq<Byte>)
    requires 0 <= offset < size
  {
    data[..Min(size - offset, |data|)]
  }

  /** The head after `data` was written at `offset`. */
  function HeadAfter(head: seq<Byte>, size: int, offset: int, data: seq<Byte>): seq<Byte>
    requires 0 <= offset && 0 < size
  {
    var headLen := HeadLen(size);
    if headLen > offset then
      var n := Min(headLen - offset, |data|);
      Resized(head, headLen)[..offset] + data[..n] + Resized(head, headLen)[offset + n..]
    else head
  }

  /** The entry and the document after a write. */
  function EntryWritten(c: Cached, offset: int, data: seq<Byte>): Cached
    requires 0 <= offset < c.size
  {
    c.(head := HeadAfter(c.head, c.size, offset, Clipped(c.size, offset, data)))
  }

  function DocWritten(d: Doc, c: Cached, offset: int, data: seq<Byte>): Doc
    requires 0 <= offset < c.size
  {
    if HeadLen(c.size) > offset then d.(head := Bin2Hex(EntryWritten(c, offset, data).head)) else d
  }

  function EntryResized(c: Cached, newSize: int): Cached
    requires 0 < newSize
  {
    c.(size := newSize, head := Resized(c.head, HeadLen(newSize)), flags := 1)
  }

  function DocResized(d: Doc, c: Cached, newSize: int): Doc
    requires 0 < newSize
  {
    d.(size := newSize, head := Bin2Hex(Resized(c.head, HeadLen(newSize))))
  }

  /** The units of an object at `p` after its first `newSize` bytes. */
  function Rest(p: Place, newSize: int, oldSize: int): Extent {
    Extent(p.vol, Pos(p) + DataAlign(newSize), Pos(p) + DataAlign(oldSize))
  }

  /** What is held once those units have been given back, if there are any. */
  ghost function HeldAfter(held: iset<Cell>, p: Place, newSize: int, oldSize: int): iset<Cell> {
    if DataAlign(newSize) >= oldSize then held else held - Cells(Rest(p, newSize, oldSize))
  }

  /** The node's hash map after `data` was written at `offset` of the object at `p`. */
  ghost function NodesAfter(nodes: map<Place, S.HashNode>, p: Place, offset: int, data: seq<Byte>)
    : map<Place, S.HashNode>
  {
    nodes[p := S.NodeAfter(NodeAt(nodes, p), Pos(p), Pos(Address(p, offset)), data)]
  }

  function AddRef(r: Record, n: int, ever: int): Record
  {
    r.(refCount := r.refCount + n, everCount := r.everCount + ever)
  }

  function Joining(hashes: map<Key, Record>, key: Key, p: Place): Record {
    if key in hashes then AddRef(hashes[key], 1, 1) else Record(p, 1, 1)
  }

  /** The steps of a `CreateObject`. */
  ghost function ApplyCreation(s: Sys, t: Step): Sys
    requires Enabled(s, t) && IsCreation(t)
  {
    match t
    case BeginCreate(pid, oid, size) =>
      s.(bare := s.bare + {oid}, calls := s.calls[pid := Creating(oid, size, Reserved)],
         making := s.making[oid := Creation(pid)])
    case Refuse(pid) =>
      var c := s.calls[pid];
      s.(objects := s.objects - {c.oid}, bare := s.bare - {c.oid}, calls := s.calls[pid := c.(stage := Refused)])
    case Withdraw(pid) =>
      var oid := s.calls[pid].oid;
      s.(objects := s.objects - {oid}, bare := s.bare - {oid}, calls := s.calls - {pid}, making := s.making - {oid})
    case Allot(pid, place) =>
      s.(held := s.held + Cells(ExtentOf(place, s.calls[pid].size)),
         calls := s.calls[pid := s.calls[pid].(stage := Allotted(place))])
    case Fill(pid) =>
      var c := s.calls[pid];
      s.(objects := s.objects[c.oid := NewDoc(c.stage.place, c.size)], bare := s.bare - {c.oid},
         calls := s.calls[pid := c.(stage := Filled(c.stage.place))])
    case Enter(pid) =>
      var c := s.calls[pid];
      s.(cache := s.cache[c.oid := NewEntry(c.stage.place, c.size)], stale := s.stale - {c.oid},
         calls := s.calls[pid := c.(stage := Entered(c.stage.place))])
    case Return(pid) => s.(calls := s.calls - {pid}, making := s.making - {s.calls[pid].oid})
    case AbortDoc(pid) =>
      var c := s.calls[pid];
      s.(objects := s.objects - {c.oid}, bare := s.bare - {c.oid}, stale := s.stale + {c.oid},
         making := s.making - {c.oid},
         calls := s.calls[pid := c.(stage := Dropped(c.stage.place))])
    case AbortFree(pid) =>
      s.(held := s.held - Cells(ExtentOf(s.calls[pid].stage.place, s.calls[pid].size)), calls := s.calls - {pid})
  }

  /** The steps of a `CreateObjectLink`. */
  ghost function ApplyLink(s: Sys, t: Step): Sys
    requires Enabled(s, t) && IsLink(t)
  {
    match t
    case BeginLink(pid, oid, key) =>
      s.(hashes := s.hashes[key := AddRef(s.hashes[key], 1, 1)], calls := s.calls[pid := Linking(oid, key, false)])
    case InsertLink(pid) =>
      var c := s.calls[pid];
      s.(bare := s.bare + {c.oid}, making := s.making[c.oid := Link(pid)],
         calls := s.calls[pid := c.(inserted := true)])
    case FillLink(pid) =>
      var oid, key := s.calls[pid].oid, s.calls[pid].key;
      s.(objects := if Taken(s, oid) then s.objects[oid := LinkedDoc(s.hashes[key], key)] else s.objects,
         bare := s.bare - {oid},
         making := s.making - {oid}, calls := s.calls - {pid})
    case UndoLink(pid) =>
      var key := s.calls[pid].key;
      s.(hashes := s.hashes[key := AddRef(s.hashes[key], -1, 0)], calls := s.calls - {pid})
  }

  /** The steps that look an object up, under its lock. */
  ghost function ApplyHandler(s: Sys, t: Step): Sys
    requires Enabled(s, t) && IsHandler(t)
  {
    match t
    case Load(oid) => s.(cache := s.cache[oid := Decode(s.objects[oid])])
    case Expire(oid) => s.(cache := s.cache - {oid})
    case Write(oid, offset, data) =>
      var c := View(s, oid);
      var part := Clipped(c.size, offset, data);
      s.(objects := if oid in s.objects then s.objects[oid := DocWritten(s.objects[oid], c, offset, data)]
          else s.objects,
         cache := s.cache[oid := EntryWritten(c, offset, data)],
         bytes := Written(s.bytes, c.place.vol, Pos(Address(c.place, offset)), part),
         nodes := NodesAfter(s.nodes, c.place, offset, part))
    case Resize(oid, newSize) =>
      var c := View(s, oid);
      s.(objects := if oid in s.objects then s.objects[oid := DocResized(s.objects[oid], c, newSize)] else s.objects,
         cache := s.cache[oid := EntryResized(c, newSize)],
         held := HeldAfter(s.held, c.place, newSize, c.size))
    case Mark(oid) =>
      var c := View(s, oid);
      var hash := s.digest(NodeInput(s.bytes, s.nodes, c));
      s.(objects := s.objects[oid := s.objects[oid].(hash := hash, complete := true)], nodes := s.nodes - {c.place},
         busy := s.busy[oid := Marked(c.(hash := hash, complete := true), Key(hash, c.size, s.objects[oid].head))])
    case Unlink(oid) =>
      var c := View(s, oid);
      s.(objects := s.objects - {oid}, bare := s.bare - {oid},
         busy := s.busy[oid := Deleting(Key(c.hash, c.size, Bin2Hex(c.head)))])
    case Discard(oid) =>
      var c := View(s, oid);
      s.(held := s.held - Cells(ExtentOf(c.place, c.size)), dead := s.dead + {oid})
  }

  /** The further steps of a completing or a deleting call. */
  ghost function ApplyPhase(s: Sys, t: Step): Sys
    requires Enabled(s, t) && IsPhase(t)
  {
    match t
    case Join(oid) =>
      var c, key := s.busy[oid].entry, s.busy[oid].key;
      var r := Joining(s.hashes, key, c.place);
      s.(hashes := s.hashes[key := r], busy := s.busy[oid := Joined(c, key, !(r.everCount > 1))])
    case FreeOwn(oid) =>
      var c := s.busy[oid].entry;
      s.(held := s.held - Cells(ExtentOf(c.place, c.size)), busy := s.busy[oid := Freed(c, s.busy[oid].key)])
    case Adopt(oid) =>
      var p := s.hashes[s.busy[oid].key].place;
      s.(objects := s.objects[oid := s.objects[oid].(place := p)],
         cache := s.cache[oid := s.busy[oid].entry.(place := p)],
         busy := s.busy - {oid})
    case Forget(oid) =>
      var key := s.busy[oid].key;
      s.(hashes := if key in s.hashes then s.hashes[key := AddRef(s.hashes[key], -1, 0)] else s.hashes,
         cache := s.cache - {oid}, busy := s.busy - {oid})
  }

  ghost function Apply(s: Sys, t: Step): Sys
    requires Enabled(s, t)
  {
    if IsCreation(t) then ApplyCreation(s, t)
    else if IsLink(t) then ApplyLink(s, t)
    else if IsHandler(t) then ApplyHandler(s, t)
    else ApplyPhase(s, t)
  }
}
