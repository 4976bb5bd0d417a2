/** One call at a time: the allocator's steps with at most one call in flight. */
module RegmSequential {
  import opened Layout
  import opened Ownership
  import opened RegmSpec
  import opened RegmProof

  /** No call is in flight. */
  ghost predicate Idle(s: Sys) { s.calls == map[] }

  /** The only call in flight is `a`. */
  ghost predicate Doing(s: Sys, a: Call) { s.calls == map[0 := a] }

  ghost predicate AllFree(chips: map<nat, Chip>) { forall id :: id in chips ==> !chips[id].lock }

  predicate Follows(c: Chip, b: Blks) { c.vol == b.vol && c.beginOffset == b.endOffset && c.beginIndex == b.endIndex }

  predicate Precedes(c: Chip, b: Blks) { c.vol == b.vol && c.endOffset == b.beginOffset && c.endIndex == b.beginIndex }

  ghost predicate NoneFollows(chips: map<nat, Chip>, b: Blks) {
    forall j :: j in chips ==> !Follows(chips[j], b)
  }

  ghost predicate NonePrecedes(chips: map<nat, Chip>, b: Blks) {
    forall j :: j in chips ==> !Precedes(chips[j], b)
  }

  /** Chip `c` ends where chip `d` begins. */
  predicate Meets(c: Chip, d: Chip) { Follows(d, BlksOf(c)) }

  /** No two free chips are neighbours. */
  ghost predicate Coalesced(chips: map<nat, Chip>) {
    forall i, j {:trigger Meets(chips[i], chips[j])} :: i in chips && j in chips ==> !Meets(chips[i], chips[j])
  }

  lemma OneCall(a: Call, b: Call)
    ensures map[0 as nat := a][0 := b] == map[0 as nat := b] && map[0 as nat := a] - {0} == map[]
  {
  }

  lemma DoingSame(s: Sys, a: Call, b: Call)
    requires Doing(s, a) && a == b
    ensures Doing(s, b)
  {
  }

  // ----- giving a range back -----------------------------------------------------------------

  lemma Begins(s: Sys, b: Blks) returns (t: Sys)
    requires Inv(s) && Idle(s) && BlksOk(b) && Cells(Range(b)) <= s.held
    ensures Inv(t) && Doing(t, Adding(b, Hi(b) - Lo(b), false))
    ensures t.chips == s.chips && t.vols == s.vols && t.held == s.held - Cells(Range(b))
  {
    BeginAddKeeps(s, 0, b);
    return Apply(s, BeginAdd(0, b));
  }

  lemma AddingIs(s: Sys, a: Call)
    requires Inv(s) && Doing(s, a) && a.Adding?
    ensures BlksOk(a.blks) && a.size == Hi(a.blks) - Lo(a.blks)
  {
    assert CallOk(s.chips, s.calls[0]);
  }

  /** The end recomputed from begin and size is the end of the absorbed chip. */
  lemma GrownEnd(b: Blks, c: Chip, size: int)
    requires BlksOk(b) && ChipOk(c) && !c.lock && Follows(c, b) && size == Hi(b) - Lo(b)
    ensures GrownBack(b, size + c.size) == b.(endIndex := c.endIndex, endOffset := c.endOffset)
  {
    var g := GrownBack(b, size + c.size);
    GrownBackRange(b, c, size + c.size);
    PositionUnique(g.endIndex, g.endOffset, c.endIndex, c.endOffset);
  }

  lemma BackIs(s: Sys, b: Blks, size: int, id: nat)
    requires Doing(s, Adding(b, size, false)) && id in s.chips && !s.chips[id].lock && Follows(s.chips[id], b)
    ensures Enabled(s, MergeBack(0, id))
    ensures var a := MergedBack(Adding(b, size, false), s.chips[id]);
            Apply(s, MergeBack(0, id)) == s.(chips := s.chips - {id}, calls := map[0 := a])
  {
    OneCall(s.calls[0], MergedBack(s.calls[0], s.chips[id]));
  }

  lemma AbsorbsBack(s: Sys, b: Blks, size: int, id: nat) returns (t: Sys)
    requires Inv(s) && Doing(s, Adding(b, size, false)) && id in s.chips && !s.chips[id].lock && Follows(s.chips[id], b)
    ensures Inv(t) && Doing(t, MergedBack(Adding(b, size, false), s.chips[id]))
    ensures t.chips == s.chips - {id} && t.vols == s.vols && t.held == s.held
  {
    BackIs(s, b, size, id);
    MergeBackKeeps(s, 0, id);
    return Apply(s, MergeBack(0, id));
  }

  lemma Turns(s: Sys, b: Blks, size: int) returns (t: Sys)
    requires Inv(s) && Doing(s, Adding(b, size, false))
    ensures Inv(t) && Doing(t, Adding(b, size, true))
    ensures t.chips == s.chips && t.vols == s.vols && t.held == s.held
  {
    TurnForwardKeeps(s, 0);
    OneCall(s.calls[0], Adding(b, size, true));
    return Apply(s, TurnForward(0));
  }

  lemma FrontIs(s: Sys, b: Blks, size: int, id: nat)
    requires Doing(s, Adding(b, size, true)) && id in s.chips && !s.chips[id].lock && Precedes(s.chips[id], b)
    ensures Enabled(s, MergeFront(0, id))
    ensures var a := MergedFront(Adding(b, size, true), s.chips[id]);
            Apply(s, MergeFront(0, id)) == s.(chips := s.chips - {id}, calls := map[0 := a])
  {
    OneCall(s.calls[0], MergedFront(s.calls[0], s.chips[id]));
  }

  lemma AbsorbsFront(s: Sys, b: Blks, size: int, id: nat) returns (t: Sys)
    requires Inv(s) && Doing(s, Adding(b, size, true)) && id in s.chips && !s.chips[id].lock && Precedes(s.chips[id], b)
    ensures Inv(t) && Doing(t, MergedFront(Adding(b, size, true), s.chips[id]))
    ensures t.chips == s.chips - {id} && t.vols == s.vols && t.held == s.held
  {
    FrontIs(s, b, size, id);
    MergeFrontKeeps(s, 0, id);
    return Apply(s, MergeFront(0, id));
  }

  lemma Inserts(s: Sys, b: Blks, size: int, id: nat) returns (t: Sys)
    requires Inv(s) && Doing(s, Adding(b, size, true)) && id !in s.chips
    ensures Inv(t) && Idle(t) && t.chips == s.chips[id := NewChip(b, size)] && t.vols == s.vols && t.held == s.held
  {
    InsertKeeps(s, 0, id);
    OneCall(s.calls[0], s.calls[0]);
    return Apply(s, Insert(0, id));
  }

  // ----- taking a range ----------------------------------------------------------------------

  lemma Locks(s: Sys, id: nat, size: int) returns (t: Sys)
    requires Inv(s) && Idle(s) && id in s.chips && Fits(s.chips[id], size) && 0 < size <= OBJECT_MAX_SIZE
    ensures Inv(t) && Doing(t, Carver(id, s.chips[id], size))
    ensures t.chips == s.chips[id := Locked(s.chips[id], size)] && t.vols == s.vols && t.held == s.held
  {
    LockChipKeeps(s, 0, id, size);
    return Apply(s, LockChip(0, id, size));
  }

  lemma Finishes(s: Sys, a: Call) returns (t: Sys)
    requires Inv(s) && Doing(s, a) && a.Carving?
    ensures Inv(t) && Idle(t) && t.vols == s.vols
    ensures a.id in s.chips
    ensures t.chips == if a.newSize > 0 then s.chips[a.id := CarvedChip(s.chips[a.id], a.blks)] else s.chips - {a.id}
    ensures t.held == s.held + Cells(Range(a.blks)) && Cells(Range(a.blks)) !! s.held
  {
    assert CallOk(s.chips, s.calls[0]);
    FinishCarveKeeps(s, 0);
    OneCall(a, a);
    return Apply(s, FinishCarve(0));
  }

  lemma Bumps(s: Sys, vol: int, size: int) returns (t: Sys)
    requires Inv(s) && Idle(s) && vol in s.vols && DataAlign(size) <= s.vols[vol].reserved
             && 0 < size <= OBJECT_MAX_SIZE
    ensures Inv(t) && Idle(t) && t.chips == s.chips && t.vols == s.vols[vol := Bumped(s.vols[vol], DataAlign(size))]
    ensures var b := Fresh(vol, s.vols[vol].curPosition, size);
            t.held == s.held + Cells(Range(b)) && Cells(Range(b)) !! s.held
  {
    BumpKeeps(s, vol, size);
    return Apply(s, BumpVolume(vol, size));
  }

  lemma BumpShape(s: Sys, vol: int, size: int)
    requires Inv(s) && vol in s.vols && 0 < size
    ensures var b := Fresh(vol, s.vols[vol].curPosition, size);
            Aligned(s.vols[vol].curPosition) && BlksOk(b) && Lo(b) == s.vols[vol].curPosition
                && Hi(b) - Lo(b) == DataAlign(size)
  {
    FreshRange(vol, s.vols[vol].curPosition, size);
  }

  lemma Registers(s: Sys, vol: int, blkCount: int) returns (t: Sys)
    requires Inv(s) && Idle(s) && 0 <= blkCount && 0 < vol && vol !in s.vols
    ensures Inv(t) && Idle(t) && t.chips == s.chips && t.vols == s.vols[vol := NewVolume(blkCount)] && t.held == s.held
  {
    RegisterKeeps(s, vol, blkCount);
    return Apply(s, Register(vol, blkCount));
  }

  lemma SetsOnline(s: Sys, vol: int, online: bool) returns (t: Sys)
    requires Inv(s) && Idle(s) && vol in s.vols
    ensures Inv(t) && Idle(t) && t.chips == s.chips && t.vols == s.vols[vol := s.vols[vol].(online := online)]
            && t.held == s.held
  {
    SetOnlineKeeps(s, vol, online);
    return Apply(s, SetOnline(vol, online));
  }
}
