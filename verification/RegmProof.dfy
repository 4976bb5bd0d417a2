/** Every step of every interleaving keeps the allocator's invariant. */
module RegmProof {
  import opened Layout
  import opened Ownership
  import opened RegmSpec

  // ----- how single updates change the owners ---------------------------------------------------

  lemma SetCall(chips: map<nat, Chip>, calls: map<nat, Call>, pid: nat, a: Call)
    ensures Claims(chips, calls[pid := a]) == Claims(chips, calls)[OfCall(pid) := Range(a.blks)]
  {
  }

  lemma DropCall(chips: map<nat, Chip>, calls: map<nat, Call>, pid: nat)
    ensures Claims(chips, calls - {pid}) == Claims(chips, calls) - {OfCall(pid)}
  {
  }

  lemma SetChip(chips: map<nat, Chip>, calls: map<nat, Call>, id: nat, c: Chip)
    ensures Claims(chips[id := c], calls) == Claims(chips, calls)[OfChip(id) := Free(c)]
  {
  }

  lemma DropChip(chips: map<nat, Chip>, calls: map<nat, Call>, id: nat)
    ensures Claims(chips - {id}, calls) == Claims(chips, calls) - {OfChip(id)}
  {
  }

  // ----- AddBlkChip ----------------------------------------------------------------------------

  lemma BeginAddOwned(s: Sys, pid: nat, a: Call)
    requires Owned(s) && pid !in s.calls && Cells(Range(a.blks)) <= s.held
    ensures Owned(s.(calls := s.calls[pid := a], held := s.held - Cells(Range(a.blks))))
  {
    Give(Claims(s.chips, s.calls), s.held, Cur(s.vols), OfCall(pid), Range(a.blks));
    SetCall(s.chips, s.calls, pid, a);
  }

  /** A call absorbs a neighbouring free chip. */
  lemma MergeOwned(s: Sys, pid: nat, id: nat, a: Call)
    requires Owned(s) && pid in s.calls && id in s.chips
    requires forall c: Cell :: In(c, Range(a.blks)) <==> In(c, Free(s.chips[id])) || In(c, Range(s.calls[pid].blks))
    ensures Owned(s.(chips := s.chips - {id}, calls := s.calls[pid := a]))
  {
    Absorb(Claims(s.chips, s.calls), s.held, Cur(s.vols), OfChip(id), OfCall(pid), Range(a.blks));
    SetCall(s.chips - {id}, s.calls, pid, a);
    DropChip(s.chips, s.calls, id);
  }

  lemma InsertOwned(s: Sys, pid: nat, id: nat, c: Chip)
    requires Owned(s) && pid in s.calls && id !in s.chips && Free(c) == Range(s.calls[pid].blks)
    ensures Owned(s.(chips := s.chips[id := c], calls := s.calls - {pid}))
  {
    Rename(Claims(s.chips, s.calls), s.held, Cur(s.vols), OfCall(pid), OfChip(id));
    DropCall(s.chips, s.calls, pid);
    SetChip(s.chips, s.calls - {pid}, id, c);
  }

  lemma LockOwned(s: Sys, pid: nat, id: nat, c: Chip, a: Call)
    requires Owned(s) && pid !in s.calls && id in s.chips
    requires forall x: Cell :: In(x, Free(s.chips[id])) <==> In(x, Free(c)) || In(x, Range(a.blks))
    requires forall x: Cell :: !(In(x, Free(c)) && In(x, Range(a.blks)))
    ensures Owned(s.(chips := s.chips[id := c], calls := s.calls[pid := a]))
  {
    Divide(Claims(s.chips, s.calls), s.held, Cur(s.vols), OfChip(id), Free(c), OfCall(pid), Range(a.blks));
    SetChip(s.chips, s.calls, id, c);
    SetCall(s.chips[id := c], s.calls, pid, a);
  }

  lemma HandOutOwned(s: Sys, pid: nat)
    requires Owned(s) && pid in s.calls
    ensures Owned(s.(calls := s.calls - {pid}, held := s.held + Cells(Range(s.calls[pid].blks))))
    ensures Cells(Range(s.calls[pid].blks)) !! s.held
  {
    Take(Claims(s.chips, s.calls), s.held, Cur(s.vols), OfCall(pid));
    DropCall(s.chips, s.calls, pid);
  }

  lemma SameFreeOwned(s: Sys, id: nat, c: Chip)
    requires Owned(s) && id in s.chips && Free(c) == Free(s.chips[id])
    ensures Owned(s.(chips := s.chips[id := c]))
  {
    SetChip(s.chips, s.calls, id, c);
    assert Claims(s.chips, s.calls)[OfChip(id) := Free(c)] == Claims(s.chips, s.calls);
  }

  lemma EmptyOwned(s: Sys, id: nat)
    requires Owned(s) && id in s.chips && Cells(Free(s.chips[id])) == iset{}
    ensures Owned(s.(chips := s.chips - {id}))
  {
    Take(Claims(s.chips, s.calls), s.held, Cur(s.vols), OfChip(id));
    assert s.held + Cells(Free(s.chips[id])) == s.held;
    DropChip(s.chips, s.calls, id);
  }

  lemma SetCur(vols: map<int, Volume>, vol: int, v: Volume)
    requires vol in vols
    ensures vol in Cur(vols) && Cur(vols)[vol] == vols[vol].curPosition
    ensures Cur(vols[vol := v]) == Cur(vols)[vol := v.curPosition]
  {
  }

  lemma BumpOwned(s: Sys, v: Volume, e: Extent)
    requires Owned(s) && e.vol in s.vols && 0 <= s.vols[e.vol].curPosition == e.lo <= e.hi == v.curPosition
    ensures Owned(s.(vols := s.vols[e.vol := v], held := s.held + Cells(e))) && Cells(e) !! s.held
  {
    SetCur(s.vols, e.vol, v);
    Bump(Claims(s.chips, s.calls), s.held, Cur(s.vols), Cur(s.vols[e.vol := v]), e);
  }

  lemma NewCur(vols: map<int, Volume>, vol: int, v: Volume)
    requires vol !in vols && v.curPosition == 0
    ensures forall c: Cell :: Below(c, Cur(vols[vol := v])) <==> Below(c, Cur(vols))
  {
  }

  lemma RegisterOwned(s: Sys, vol: int, v: Volume)
    requires Owned(s) && vol !in s.vols && v.curPosition == 0
    ensures Owned(s.(vols := s.vols[vol := v]))
  {
    NewCur(s.vols, vol, v);
  }

  // ----- the ranges of grown, carved and fresh extents -------------------------------------------

  lemma RangeAligned(b: Blks, c: Chip)
    requires BlksOk(b) && BlksOk(BlksOf(c))
    ensures Aligned(Hi(BlksOf(c)) - Lo(b)) && 0 <= Lo(b) && 0 <= Hi(BlksOf(c))
  {
    IsCanonical(b.beginIndex, b.beginOffset);
    IsCanonical(c.endIndex, c.endOffset);
    AlignedSum(Hi(BlksOf(c)), -Lo(b));
  }

  lemma GrownBackRange(b: Blks, c: Chip, size: int)
    requires BlksOk(b) && BlksOk(BlksOf(c)) && size == Hi(BlksOf(c)) - Lo(b) && 0 < size
    ensures BlksOk(GrownBack(b, size)) && Lo(GrownBack(b, size)) == Lo(b) && Hi(GrownBack(b, size)) == Hi(BlksOf(c))
  {
    RangeAligned(b, c);
    CanonicalEnd(b.beginIndex, b.beginOffset, size);
  }

  /** The tail is the last bytes of the chip: exactly the aligned size, ending at its end. */
  lemma TailRange(c: Chip, size: int)
    requires BlksOk(BlksOf(c)) && 0 < size && DataAlign(size) <= Hi(BlksOf(c)) - Lo(BlksOf(c))
    ensures BlksOk(Tail(c, size)) && Hi(Tail(c, size)) == Hi(BlksOf(c))
    ensures Lo(Tail(c, size)) == Hi(BlksOf(c)) - DataAlign(size) && 0 < DataAlign(size)
  {
    AlignUp(size);
    NonNegative(c.beginIndex, c.beginOffset);
    CanonicalEnd(c.endIndex, c.endOffset, -DataAlign(size));
  }

  lemma FreshRange(vol: int, cur: int, size: int)
    requires 0 <= cur && Aligned(cur) && 0 < size
    ensures var b := Fresh(vol, cur, size);
            BlksOk(b) && Lo(b) == cur && Hi(b) == cur + DataAlign(size)
                && Range(b) == Extent(vol, cur, cur + DataAlign(size))
    ensures 0 < DataAlign(size) && Aligned(cur + DataAlign(size))
  {
    AlignUp(size);
    AlignedSum(cur, DataAlign(size));
    CanonicalPos(cur);
    CanonicalPos(cur + DataAlign(size));
  }

  // ----- how single updates change the documents ----------------------------------------------

  lemma PutCallDocs(chips: map<nat, Chip>, calls: map<nat, Call>, pid: nat, a: Call)
    requires DocsOk(chips, calls) && CallOk(chips, a) && forall p :: p in calls && SameChip(calls[p], a) ==> p == pid
    ensures DocsOk(chips, calls[pid := a])
  {
  }

  lemma RemoveChipDocs(chips: map<nat, Chip>, calls: map<nat, Call>, id: nat)
    requires DocsOk(chips, calls) && id in chips && !chips[id].lock
    ensures DocsOk(chips - {id}, calls)
  {
  }

  lemma InsertDocs(chips: map<nat, Chip>, calls: map<nat, Call>, pid: nat, id: nat, c: Chip)
    requires DocsOk(chips, calls) && pid in calls && id !in chips && ChipOk(c)
    ensures DocsOk(chips[id := c], calls - {pid})
  {
  }

  lemma LockDocs(chips: map<nat, Chip>, calls: map<nat, Call>, pid: nat, id: nat, c: Chip, a: Call)
    requires DocsOk(chips, calls) && id in chips && !chips[id].lock && ChipOk(c)
    requires a.Carving? && a.id == id && BlksOk(a.blks) && CarvedFrom(c, a.blks, a.newSize)
    ensures DocsOk(chips[id := c], calls[pid := a])
  {
  }

  lemma UnlockDocs(chips: map<nat, Chip>, calls: map<nat, Call>, pid: nat, c: Chip)
    requires DocsOk(chips, calls) && pid in calls && calls[pid].Carving? && ChipOk(c)
    ensures DocsOk(chips[calls[pid].id := c], calls - {pid})
  {
    var id := calls[pid].id;
    forall p | p in calls - {pid} ensures CallOk(chips[id := c], calls[p]) {
      assert SameChip(calls[p], calls[pid]) ==> p == pid;
    }
  }

  lemma DeleteDocs(chips: map<nat, Chip>, calls: map<nat, Call>, pid: nat)
    requires DocsOk(chips, calls) && pid in calls && calls[pid].Carving?
    ensures DocsOk(chips - {calls[pid].id}, calls - {pid})
  {
    var id := calls[pid].id;
    forall p | p in calls - {pid} ensures CallOk(chips - {id}, calls[p]) {
      assert SameChip(calls[p], calls[pid]) ==> p == pid;
    }
  }

  lemma PutVolumeOk(vols: map<int, Volume>, vol: int, v: Volume)
    requires VolumesOk(vols) && VolumeOk(v)
    ensures VolumesOk(vols[vol := v])
  {
  }

  // ----- every step ----------------------------------------------------------------------------

  lemma BeginAddKeeps(s: Sys, pid: nat, blks: Blks)
    requires Inv(s) && Enabled(s, BeginAdd(pid, blks))
    ensures Inv(Apply(s, BeginAdd(pid, blks)))
  {
    var a := Adding(blks, Hi(blks) - Lo(blks), false);
    BeginAddOwned(s, pid, a);
    PutCallDocs(s.chips, s.calls, pid, a);
  }

  /** A call that absorbs a neighbour. */
  lemma MergeKeeps(s: Sys, pid: nat, id: nat, a: Call)
    requires Inv(s) && pid in s.calls && id in s.chips && !s.chips[id].lock
    requires a.Adding? && BlksOk(a.blks) && a.size == Hi(a.blks) - Lo(a.blks)
    requires forall c: Cell :: In(c, Range(a.blks)) <==> In(c, Free(s.chips[id])) || In(c, Range(s.calls[pid].blks))
    ensures Inv(s.(chips := s.chips - {id}, calls := s.calls[pid := a]))
  {
    MergeOwned(s, pid, id, a);
    RemoveChipDocs(s.chips, s.calls, id);
    PutCallDocs(s.chips - {id}, s.calls, pid, a);
  }

  function MergedBack(a: Call, c: Chip): Call
    requires a.Adding?
  {
    Adding(GrownBack(a.blks, a.size + c.size), a.size + c.size, false)
  }

  function MergedFront(a: Call, c: Chip): Call
    requires a.Adding?
  {
    Adding(GrownFront(a.blks, c), a.size + c.size, true)
  }

  /** Absorbing the chip behind: the range now ends where the chip ended. */
  lemma GrowsBack(a: Call, c: Chip)
    requires a.Adding? && BlksOk(a.blks) && a.size == Hi(a.blks) - Lo(a.blks) && ChipOk(c) && !c.lock
    requires c.vol == a.blks.vol && c.beginIndex == a.blks.endIndex && c.beginOffset == a.blks.endOffset
    ensures var g := MergedBack(a, c);
            BlksOk(g.blks) && g.size == Hi(g.blks) - Lo(g.blks)
            && Range(g.blks) == Range(a.blks).(hi := Free(c).hi) && Range(a.blks).hi == Free(c).lo
  {
    GrownBackRange(a.blks, c, a.size + c.size);
  }

  lemma GrowsFront(a: Call, c: Chip)
    requires a.Adding? && BlksOk(a.blks) && a.size == Hi(a.blks) - Lo(a.blks) && ChipOk(c) && !c.lock
    requires c.vol == a.blks.vol && c.endIndex == a.blks.beginIndex && c.endOffset == a.blks.beginOffset
    ensures var g := MergedFront(a, c);
            BlksOk(g.blks) && g.size == Hi(g.blks) - Lo(g.blks)
            && Range(g.blks) == Range(a.blks).(lo := Free(c).lo) && Range(a.blks).lo == Free(c).hi
  {
  }

  lemma MergeBackKeeps(s: Sys, pid: nat, id: nat)
    requires Inv(s) && Enabled(s, MergeBack(pid, id))
    ensures Inv(Apply(s, MergeBack(pid, id)))
  {
    GrowsBack(s.calls[pid], s.chips[id]);
    MergeKeeps(s, pid, id, MergedBack(s.calls[pid], s.chips[id]));
  }

  lemma MergeFrontKeeps(s: Sys, pid: nat, id: nat)
    requires Inv(s) && Enabled(s, MergeFront(pid, id))
    ensures Inv(Apply(s, MergeFront(pid, id)))
  {
    GrowsFront(s.calls[pid], s.chips[id]);
    MergeKeeps(s, pid, id, MergedFront(s.calls[pid], s.chips[id]));
  }

  lemma SameRangeOwned(s: Sys, pid: nat, a: Call)
    requires Owned(s) && pid in s.calls && a.blks == s.calls[pid].blks
    ensures Owned(s.(calls := s.calls[pid := a]))
  {
    SetCall(s.chips, s.calls, pid, a);
    assert Claims(s.chips, s.calls)[OfCall(pid) := Range(a.blks)] == Claims(s.chips, s.calls);
  }

  lemma TurnForwardKeeps(s: Sys, pid: nat)
    requires Inv(s) && Enabled(s, TurnForward(pid))
    ensures Inv(Apply(s, TurnForward(pid)))
  {
    SameRangeOwned(s, pid, s.calls[pid].(forward := true));
    PutCallDocs(s.chips, s.calls, pid, s.calls[pid].(forward := true));
  }

  lemma InsertKeeps(s: Sys, pid: nat, id: nat)
    requires Inv(s) && Enabled(s, Insert(pid, id))
    ensures Inv(Apply(s, Insert(pid, id)))
  {
    var a := s.calls[pid];
    InsertOwned(s, pid, id, NewChip(a.blks, a.size));
    InsertDocs(s.chips, s.calls, pid, id, NewChip(a.blks, a.size));
  }

  function Locked(c: Chip, size: int): Chip { c.(size := c.size - DataAlign(size), lock := true) }

  function Carver(id: nat, c: Chip, size: int): Call { Carving(id, Tail(c, size), c.size - DataAlign(size)) }

  /** Locking divides the chip between the document and the carver. */
  lemma Divides(id: nat, c: Chip, size: int)
    requires ChipOk(c) && Fits(c, size) && 0 < size
    ensures ChipOk(Locked(c, size)) && BlksOk(Tail(c, size))
    ensures CarvedFrom(Locked(c, size), Tail(c, size), c.size - DataAlign(size))
    ensures Free(c) == Extent(c.vol, Free(Locked(c, size)).lo, Range(Tail(c, size)).hi)
    ensures Free(Locked(c, size)).hi == Range(Tail(c, size)).lo
            && Free(Locked(c, size)).vol == Tail(c, size).vol == c.vol
  {
    TailRange(c, size);
  }

  lemma DividesCells(id: nat, c: Chip, size: int)
    requires ChipOk(c) && Fits(c, size) && 0 < size
    ensures forall x: Cell :: In(x, Free(c)) <==> In(x, Free(Locked(c, size))) || In(x, Range(Carver(id, c, size).blks))
    ensures forall x: Cell :: !(In(x, Free(Locked(c, size))) && In(x, Range(Carver(id, c, size).blks)))
  {
    Divides(id, c, size);
  }

  lemma LockedKeeps(s: Sys, pid: nat, id: nat, size: int)
    requires Inv(s) && pid !in s.calls && id in s.chips && Fits(s.chips[id], size) && 0 < size
    ensures var c := s.chips[id]; Inv(s.(chips := s.chips[id := Locked(c, size)],
                                         calls := s.calls[pid := Carver(id, c, size)]))
  {
    var c := s.chips[id];
    DividesCells(id, c, size);
    LockOwned(s, pid, id, Locked(c, size), Carver(id, c, size));
    Divides(id, c, size);
    LockDocs(s.chips, s.calls, pid, id, Locked(c, size), Carver(id, c, size));
  }

  lemma LockChipKeeps(s: Sys, pid: nat, id: nat, size: int)
    requires Inv(s) && Enabled(s, LockChip(pid, id, size))
    ensures Inv(Apply(s, LockChip(pid, id, size)))
  {
    LockedKeeps(s, pid, id, size);
  }

  /** The chip as the carver leaves it is free up to the carved range. */
  lemma Unlocks(c: Chip, b: Blks, newSize: int)
    requires ChipOk(c) && BlksOk(b) && CarvedFrom(c, b, newSize)
    ensures 0 < newSize ==> ChipOk(CarvedChip(c, b)) && Free(CarvedChip(c, b)) == Free(c)
    ensures 0 == newSize ==> Cells(Free(c)) == iset{}
  {
  }

  lemma FinishCarveKeeps(s: Sys, pid: nat)
    requires Inv(s) && Enabled(s, FinishCarve(pid))
    ensures Inv(Apply(s, FinishCarve(pid)))
    ensures Cells(Range(s.calls[pid].blks)) !! s.held
  {
    var a := s.calls[pid];
    Unlocks(s.chips[a.id], a.blks, a.newSize);
    HandOutOwned(s, pid);
    var u := s.(calls := s.calls - {pid}, held := s.held + Cells(Range(a.blks)));
    if a.newSize > 0 {
      SameFreeOwned(u, a.id, CarvedChip(s.chips[a.id], a.blks));
      UnlockDocs(s.chips, s.calls, pid, CarvedChip(s.chips[a.id], a.blks));
    } else {
      EmptyOwned(u, a.id);
      DeleteDocs(s.chips, s.calls, pid);
    }
  }

  function Bumped(v: Volume, n: int): Volume { v.(curPosition := v.curPosition + n, reserved := v.reserved - n) }

  lemma BumpVolumeOk(v: Volume, vol: int, size: int)
    requires VolumeOk(v) && 0 < size && DataAlign(size) <= v.reserved
    ensures VolumeOk(Bumped(v, DataAlign(size)))
            && Bumped(v, DataAlign(size)).curPosition == v.curPosition + DataAlign(size)
    ensures Range(Fresh(vol, v.curPosition, size)) == Extent(vol, v.curPosition, v.curPosition + DataAlign(size))
            && 0 < DataAlign(size)
  {
    FreshRange(vol, v.curPosition, size);
  }

  lemma BumpKeeps(s: Sys, vol: int, size: int)
    requires Inv(s) && Enabled(s, BumpVolume(vol, size))
    ensures Inv(Apply(s, BumpVolume(vol, size)))
    ensures Cells(Range(Fresh(vol, s.vols[vol].curPosition, size))) !! s.held
  {
    var v := s.vols[vol];
    BumpVolumeOk(v, vol, size);
    BumpOwned(s, Bumped(v, DataAlign(size)), Range(Fresh(vol, v.curPosition, size)));
    PutVolumeOk(s.vols, vol, Bumped(v, DataAlign(size)));
  }

  lemma NewVolumeOk(blkCount: int)
    requires 0 <= blkCount
    ensures VolumeOk(NewVolume(blkCount))
  {
    MulMonotone(0, blkCount, BLK_SIZE);
  }

  lemma RegisterKeeps(s: Sys, vol: int, blkCount: int)
    requires Inv(s) && Enabled(s, Register(vol, blkCount))
    ensures Inv(Apply(s, Register(vol, blkCount)))
  {
    if vol !in s.vols {
      NewVolumeOk(blkCount);
      RegisterOwned(s, vol, NewVolume(blkCount));
      PutVolumeOk(s.vols, vol, NewVolume(blkCount));
    }
  }

  lemma SameCur(vols: map<int, Volume>, vol: int, v: Volume)
    requires vol in vols && v.curPosition == vols[vol].curPosition
    ensures Cur(vols[vol := v]) == Cur(vols)
  {
  }

  lemma SameCurOwned(s: Sys, vol: int, v: Volume)
    requires Owned(s) && vol in s.vols && v.curPosition == s.vols[vol].curPosition
    ensures Owned(s.(vols := s.vols[vol := v]))
  {
    SameCur(s.vols, vol, v);
  }

  lemma SetOnlineKeeps(s: Sys, vol: int, online: bool)
    requires Inv(s) && Enabled(s, SetOnline(vol, online))
    ensures Inv(Apply(s, SetOnline(vol, online)))
  {
    SameCurOwned(s, vol, s.vols[vol].(online := online));
    PutVolumeOk(s.vols, vol, s.vols[vol].(online := online));
  }

  lemma StepKeeps(s: Sys, t: Step)
    requires Inv(s) && Enabled(s, t)
    ensures Inv(Apply(s, t))
  {
    match t
    case BeginAdd(pid, blks) => BeginAddKeeps(s, pid, blks);
    case MergeBack(pid, id) => MergeBackKeeps(s, pid, id);
    case TurnForward(pid) => TurnForwardKeeps(s, pid);
    case MergeFront(pid, id) => MergeFrontKeeps(s, pid, id);
    case Insert(pid, id) => InsertKeeps(s, pid, id);
    case LockChip(pid, id, size) => LockChipKeeps(s, pid, id, size);
    case FinishCarve(pid) => FinishCarveKeeps(s, pid);
    case BumpVolume(vol, size) => BumpKeeps(s, vol, size);
    case Register(vol, blkCount) => RegisterKeeps(s, vol, blkCount);
    case SetOnline(vol, online) => SetOnlineKeeps(s, vol, online);
  }
}
