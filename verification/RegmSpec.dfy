/**
 The extent allocator (bfss_regm/bfss_regm.cpp) as a protocol over single database
 operations: any number of `AddBlkChip` and `AllocateBlks` calls interleaved.
 */
module RegmSpec {
  import opened Layout
  import opened Ownership

  /** A document of the chip collection: a free range, or one being carved when locked. */
  datatype Chip = Chip(vol: int, beginIndex: int, beginOffset: int, endIndex: int, endOffset: int, size: int,
                       lock: bool)

  datatype Volume = Volume(blkCount: int, curPosition: int, reserved: int, online: bool)

  /** `ALLOCATE_BLKS_INFO`. */
  datatype Blks = Blks(vol: int, beginIndex: int, beginOffset: int, endIndex: int, endOffset: int)

  /** A call in flight. `Adding` owns the chips it has merged; `Carving` has locked a chip
      and not yet updated its end. */
  datatype Call =
    | Adding(blks: Blks, size: int, forward: bool)
    | Carving(id: nat, blks: Blks, newSize: int)

  datatype Sys = Sys(chips: map<nat, Chip>, vols: map<int, Volume>, calls: map<nat, Call>, ghost held: iset<Cell>)

  datatype Claim = OfChip(id: nat) | OfCall(pid: nat)

  // ----- extents of the parts --------------------------------------------------------------

  function Lo(b: Blks): int { BeginPos(b.beginIndex, b.beginOffset) }

  function Hi(b: Blks): int { BeginPos(b.endIndex, b.endOffset) }

  function BlksOf(c: Chip): Blks { Blks(c.vol, c.beginIndex, c.beginOffset, c.endIndex, c.endOffset) }

  function Range(b: Blks): Extent { Extent(b.vol, Lo(b), Hi(b)) }

  /** A free chip owns its range; a locked one only what the carver left it. */
  function Free(c: Chip): Extent {
    Extent(c.vol, Lo(BlksOf(c)), if c.lock then Lo(BlksOf(c)) + c.size else Hi(BlksOf(c)))
  }

  /** The owners other than the callers. */
  ghost function Owners(chips: map<nat, Chip>, calls: map<nat, Call>): (r: set<Claim>)
    ensures forall k :: k in r <==> IsOwner(chips, calls, k)
  {
    var ofChips, ofCalls := set id | id in chips :: OfChip(id), set pid | pid in calls :: OfCall(pid);
    ofChips + ofCalls
  }

  predicate IsOwner(chips: map<nat, Chip>, calls: map<nat, Call>, k: Claim) {
    match k
    case OfChip(id) => id in chips
    case OfCall(pid) => pid in calls
  }

  function OwnedBy(chips: map<nat, Chip>, calls: map<nat, Call>, k: Claim): Extent
    requires IsOwner(chips, calls, k)
  {
    match k
    case OfChip(id) => Free(chips[id])
    case OfCall(pid) => Range(calls[pid].blks)
  }

  ghost function Claims(chips: map<nat, Chip>, calls: map<nat, Call>): (m: map<Claim, Extent>)
    ensures forall k :: k in m <==> IsOwner(chips, calls, k)
    ensures forall k :: k in m ==> m[k] == OwnedBy(chips, calls, k)
  {
    map k | k in Owners(chips, calls) :: OwnedBy(chips, calls, k)
  }

  function Cur(vols: map<int, Volume>): (m: map<int, int>)
    ensures m.Keys == vols.Keys && forall v :: v in vols ==> m[v] == vols[v].curPosition
  {
    map v | v in vols :: vols[v].curPosition
  }

  // ----- the invariant ------------------------------------------------------------------------

  /** A non-empty range between canonical addresses. */
  predicate BlksOk(b: Blks) {
    Canonical(b.beginIndex, b.beginOffset) && Canonical(b.endIndex, b.endOffset) && Lo(b) < Hi(b)
  }

  predicate ChipOk(c: Chip) {
    BlksOk(BlksOf(c)) && (!c.lock ==> c.size == Hi(BlksOf(c)) - Lo(BlksOf(c)))
  }

  predicate CallOk(chips: map<nat, Chip>, a: Call) {
    match a
    case Adding(blks, size, _) => BlksOk(blks) && size == Hi(blks) - Lo(blks)
    case Carving(id, blks, newSize) => BlksOk(blks) && id in chips && CarvedFrom(chips[id], blks, newSize)
  }

  /** The chip is locked for this carver: what is left of it ends where the carved range begins. */
  predicate CarvedFrom(c: Chip, blks: Blks, newSize: int) {
    && c.lock && c.size == newSize && 0 <= newSize && c.vol == blks.vol
    && (c.endIndex, c.endOffset) == (blks.endIndex, blks.endOffset)
    && Lo(BlksOf(c)) + newSize == Lo(blks)
  }

  predicate SameChip(a: Call, b: Call) { a.Carving? && b.Carving? && a.id == b.id }

  ghost predicate VolumeOk(v: Volume) {
    0 <= v.curPosition && Aligned(v.curPosition) && 0 <= v.reserved
        && v.curPosition + v.reserved == v.blkCount * BLK_SIZE
  }

  /** The documents and the calls in flight fit together. */
  ghost predicate DocsOk(chips: map<nat, Chip>, calls: map<nat, Call>) {
    && (forall id :: id in chips ==> ChipOk(chips[id]))
    && (forall p :: p in calls ==> CallOk(chips, calls[p]))
    && (forall p, q :: p in calls && q in calls && SameChip(calls[p], calls[q]) ==> p == q)
  }

  ghost predicate VolumesOk(vols: map<int, Volume>) { forall v :: v in vols ==> VolumeOk(vols[v]) }

  ghost predicate Owned(s: Sys) { Partition(Claims(s.chips, s.calls), s.held, Cur(s.vols)) }

  ghost predicate Inv(s: Sys) { Owned(s) && DocsOk(s.chips, s.calls) && VolumesOk(s.vols) }

  // ----- the steps -----------------------------------------------------------------------------

  datatype Step =
    | BeginAdd(pid: nat, blks: Blks)
    | MergeBack(pid: nat, id: nat)
    | TurnForward(pid: nat)
    | MergeFront(pid: nat, id: nat)
    | Insert(pid: nat, id: nat)
    | LockChip(pid: nat, id: nat, size: int)
    | FinishCarve(pid: nat)
    | BumpVolume(vol: int, size: int)
    | Register(vol: int, blkCount: int)
    | SetOnline(vol: int, online: bool)

  /** `find_one_and_delete` of the chip that begins where the range ends. */
  predicate FollowsRange(s: Sys, id: nat, b: Blks) {
    && id in s.chips && !s.chips[id].lock && s.chips[id].vol == b.vol
    && s.chips[id].beginOffset == b.endOffset && s.chips[id].beginIndex == b.endIndex
  }

  /** `find_one_and_delete` of the chip that ends where the range begins. */
  predicate PrecedesRange(s: Sys, id: nat, b: Blks) {
    && id in s.chips && !s.chips[id].lock && s.chips[id].vol == b.vol
    && s.chips[id].endOffset == b.beginOffset && s.chips[id].endIndex == b.beginIndex
  }

  predicate Fits(c: Chip, size: int) { !c.lock && DataAlign(size) <= c.size }

  ghost predicate Enabled(s: Sys, t: Step) {
    match t
    case BeginAdd(pid, blks) => pid !in s.calls && BlksOk(blks) && Cells(Range(blks)) <= s.held
    case MergeBack(pid, id) =>
      pid in s.calls && s.calls[pid].Adding? && !s.calls[pid].forward && FollowsRange(s, id, s.calls[pid].blks)
    case TurnForward(pid) => pid in s.calls && s.calls[pid].Adding? && !s.calls[pid].forward
    case MergeFront(pid, id) =>
      pid in s.calls && s.calls[pid].Adding? && s.calls[pid].forward && PrecedesRange(s, id, s.calls[pid].blks)
    case Insert(pid, id) => pid in s.calls && s.calls[pid].Adding? && s.calls[pid].forward && id !in s.chips
    case LockChip(pid, id, size) =>
      pid !in s.calls && 0 < size <= OBJECT_MAX_SIZE && id in s.chips && Fits(s.chips[id], size)
    case FinishCarve(pid) => pid in s.calls && s.calls[pid].Carving?
    case BumpVolume(vol, size) =>
      0 < size <= OBJECT_MAX_SIZE && vol in s.vols && DataAlign(size) <= s.vols[vol].reserved
    case Register(vol, blkCount) => 0 <= blkCount && 0 < vol
    case SetOnline(vol, online) => vol in s.vols
  }

  /** The tail an allocation takes from a chip. */
  function Tail(c: Chip, size: int): Blks {
    Blks(c.vol, BlkIndex(c.endIndex, c.endOffset, -DataAlign(size)),
         OffsetOf(BeginPos(c.endIndex, c.endOffset) - DataAlign(size)), c.endIndex, c.endOffset)
  }

  /** The range a bump allocation takes at position `cur`. */
  function Fresh(vol: int, cur: int, size: int): Blks {
    Blks(vol, IndexOf(cur), OffsetOf(cur), IndexOf(cur + DataAlign(size)), OffsetOf(cur + DataAlign(size)))
  }

  /** The range grown by the chip behind it: the end is recomputed from begin and size. */
  function GrownBack(b: Blks, size: int): Blks {
    b.(endIndex := BlkIndex(b.beginIndex, b.beginOffset, size),
       endOffset := BlkEndOffset(b.beginIndex, b.beginOffset, size))
  }

  function GrownFront(b: Blks, c: Chip): Blks { b.(beginIndex := c.beginIndex, beginOffset := c.beginOffset) }

  function NewChip(b: Blks, size: int): Chip {
    Chip(b.vol, b.beginIndex, b.beginOffset, b.endIndex, b.endOffset, size, false)
  }

  function CarvedChip(c: Chip, b: Blks): Chip {
    c.(endIndex := b.beginIndex, endOffset := b.beginOffset, lock := false)
  }

  /** A volume as first registered; a later operation brings it online. */
  function NewVolume(blkCount: int): Volume { Volume(blkCount, 0, blkCount * BLK_SIZE, false) }

  ghost function Apply(s: Sys, t: Step): Sys
    requires Enabled(s, t)
  {
    match t
    case BeginAdd(pid, blks) =>
      s.(calls := s.calls[pid := Adding(blks, Hi(blks) - Lo(blks), false)], held := s.held - Cells(Range(blks)))
    case MergeBack(pid, id) =>
      var a := s.calls[pid];
      var size := a.size + s.chips[id].size;
      s.(chips := s.chips - {id}, calls := s.calls[pid := Adding(GrownBack(a.blks, size), size, false)])
    case TurnForward(pid) => s.(calls := s.calls[pid := s.calls[pid].(forward := true)])
    case MergeFront(pid, id) =>
      var a := s.calls[pid];
      s.(chips := s.chips - {id},
         calls := s.calls[pid := Adding(GrownFront(a.blks, s.chips[id]), a.size + s.chips[id].size, true)])
    case Insert(pid, id) =>
      s.(chips := s.chips[id := NewChip(s.calls[pid].blks, s.calls[pid].size)], calls := s.calls - {pid})
    case LockChip(pid, id, size) =>
      var c := s.chips[id];
      var left := c.size - DataAlign(size);
      s.(chips := s.chips[id := c.(size := left, lock := true)],
         calls := s.calls[pid := Carving(id, Tail(c, size), left)])
    case FinishCarve(pid) =>
      var a := s.calls[pid];
      s.(chips := if a.newSize > 0 && a.id in s.chips then s.chips[a.id := CarvedChip(s.chips[a.id], a.blks)]
          else s.chips - {a.id},
         calls := s.calls - {pid}, held := s.held + Cells(Range(a.blks)))
    case BumpVolume(vol, size) =>
      var v := s.vols[vol];
      var a := DataAlign(size);
      s.(vols := s.vols[vol := v.(curPosition := v.curPosition + a, reserved := v.reserved - a)],
         held := s.held + Cells(Range(Fresh(vol, v.curPosition, size))))
    case Register(vol, blkCount) => if vol in s.vols then s else s.(vols := s.vols[vol := NewVolume(blkCount)])
    case SetOnline(vol, online) => s.(vols := s.vols[vol := s.vols[vol].(online := online)])
  }
}
