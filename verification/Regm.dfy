/**
 The extent allocator as the service runs it (bfss_regm/bfss_regm.cpp): one call at a time over
 the volume and chip collections and the queue of volumes.
 */
module Regm {
  import opened Layout
  import opened Ownership
  import opened RegmSpec
  import opened RegmProof
  import opened RegmSequential
  import opened RegmRuns

  datatype AddResult = Added | AddParamError
  datatype AllocateResult = Allocated(blks: Blks) | AllocateParamError | NoSpace
  datatype RegisterResult = Registered | RegisterParamError | CutOff
  datatype ManageResult = Done | NoVolume

  /** The checks `AddBlkChip` makes. */
  predicate ParamsOk(b: Blks) {
    && !(b.beginIndex < 0) && !(b.endIndex < 0) && !(b.endIndex - b.beginIndex < 0) && !(b.endOffset < 0)
    && !(b.beginOffset > BLK_SIZE) && !(b.endOffset > BLK_SIZE)
    && !(DataAlign(b.beginOffset) != b.beginOffset) && !(DataAlign(b.endOffset) != b.endOffset)
  }

  lemma ParamsAre(b: Blks)
    ensures ParamsOk(b) <==>
              && 0 <= b.beginIndex <= b.endIndex && 0 <= b.endOffset && b.beginOffset <= BLK_SIZE
              && b.endOffset <= BLK_SIZE && b.beginOffset % 16 == 0 && b.endOffset % 16 == 0
  {
    AlignUp(b.beginOffset);
    AlignUp(b.endOffset);
  }

  // ----- what freeing a range does to the collection --------------------------------------------

  predicate EndsLike(c: Blks, index: int, offset: int) { c.endIndex == index && c.endOffset == offset }

  predicate BeginsLike(c: Blks, index: int, offset: int) { c.beginIndex == index && c.beginOffset == offset }

  /** The neighbour a merge loop has taken out, if there was one. */
  datatype Gone = Nobody | Neighbour(id: nat)

  /** `chips` is `before` without the chip that follows `b`, if there is one; `(index, offset)`
      is where that chip ended, or else `b`. */
  ghost predicate BehindMerged(before: map<nat, Chip>, chips: map<nat, Chip>, b: Blks, index: int, offset: int,
                               gone: Gone) {
    match gone
    case Nobody => chips == before && EndsLike(b, index, offset)
    case Neighbour(j) =>
      j in before && Follows(before[j], b) && chips == before - {j} && EndsLike(BlksOf(before[j]), index, offset)
  }

  ghost predicate AheadMerged(before: map<nat, Chip>, chips: map<nat, Chip>, b: Blks, index: int, offset: int,
                              gone: Gone) {
    match gone
    case Nobody => chips == before && BeginsLike(b, index, offset)
    case Neighbour(j) =>
      j in before && Precedes(before[j], b) && chips == before - {j} && BeginsLike(BlksOf(before[j]), index, offset)
  }

  predicate Touches(c: Chip, b: Blks) { Follows(c, b) || Precedes(c, b) }

  /** Where the chip for the freed range `b` begins: at the begin of the chip before it, or of `b`. */
  ghost predicate BeginsRight(before: map<nat, Chip>, b: Blks, c: Blks) {
    || (NonePrecedes(before, b) && BeginsLike(b, c.beginIndex, c.beginOffset))
    || (exists j :: j in before && Precedes(before[j], b) && BeginsLike(BlksOf(before[j]), c.beginIndex, c.beginOffset))
  }

  ghost predicate EndsRight(before: map<nat, Chip>, b: Blks, c: Blks) {
    || (NoneFollows(before, b) && EndsLike(b, c.endIndex, c.endOffset))
    || (exists j :: j in before && Follows(before[j], b) && EndsLike(BlksOf(before[j]), c.endIndex, c.endOffset))
  }

  /** Freeing `b` replaces its neighbours by one new chip that spans them and `b`; every other
      chip stays as it was. */
  ghost predicate Inserted(before: map<nat, Chip>, after: map<nat, Chip>, b: Blks, id: nat) {
    && id !in before && id in after && !after[id].lock && after[id].vol == b.vol
    && (forall j :: j in after && j != id ==> j in before && after[j] == before[j])
    && (forall j :: j in before ==> (j in after <==> !Touches(before[j], b)))
    && BeginsRight(before, b, BlksOf(after[id])) && EndsRight(before, b, BlksOf(after[id]))
    && after[id].size == Hi(BlksOf(after[id])) - Lo(BlksOf(after[id]))
  }

  function WithEnd(b: Blks, index: int, offset: int): Blks { b.(endIndex := index, endOffset := offset) }

  function WithBegin(b: Blks, index: int, offset: int): Blks { b.(beginIndex := index, beginOffset := offset) }

  /** The first loop of `AddBlkChip`, started in `s0` for the range `b`, has reached `s`. */
  ghost predicate BehindState(s0: Sys, s: Sys, b: Blks, size: int, index: int, offset: int, gone: Gone) {
    && Inv(s) && Doing(s, Adding(WithEnd(b, index, offset), size, false))
    && AllFree(s.chips) && s.vols == s0.vols && s.held == s0.held
       && BehindMerged(s0.chips, s.chips, b, index, offset, gone)
  }

  ghost predicate AheadState(s0: Sys, s: Sys, b: Blks, size: int, index: int, offset: int, gone: Gone) {
    && Inv(s) && Doing(s, Adding(WithBegin(b, index, offset), size, true))
    && AllFree(s.chips) && s.vols == s0.vols && s.held == s0.held
       && AheadMerged(s0.chips, s.chips, b, index, offset, gone)
  }

  /** Among coalesced chips the first round of the loop is also the last. */
  lemma BehindOnce(before: map<nat, Chip>, chips: map<nat, Chip>, b: Blks, index: int, offset: int, gone: Gone, id: nat)
    requires Coalesced(before) && BehindMerged(before, chips, b, index, offset, gone)
    requires id in chips && Follows(chips[id], WithEnd(b, index, offset))
    ensures BehindMerged(before, chips - {id}, b, chips[id].endIndex, chips[id].endOffset, Neighbour(id))
  {
    assert gone.Neighbour? ==> Meets(before[gone.id], before[id]);
  }

  lemma AheadOnce(before: map<nat, Chip>, chips: map<nat, Chip>, b: Blks, index: int, offset: int, gone: Gone, id: nat)
    requires Coalesced(before) && AheadMerged(before, chips, b, index, offset, gone)
    requires id in chips && Precedes(chips[id], WithBegin(b, index, offset))
    ensures AheadMerged(before, chips - {id}, b, chips[id].beginIndex, chips[id].beginOffset, Neighbour(id))
  {
    assert gone.Neighbour? ==> Meets(before[id], before[gone.id]);
  }

  /** Free chip `c` follows the range `b` as grown so far to `size` bytes. */
  predicate Extends(b: Blks, size: int, index: int, offset: int, c: Chip) {
    var g := WithEnd(b, index, offset);
    BlksOk(g) && size == Hi(g) - Lo(g) && ChipOk(c) && !c.lock && Follows(c, g)
  }

  /** The end recomputed from begin and size is where the chip ended. */
  method Recompute(b: Blks, size: int, ghost index: int, ghost offset: int, c: Chip)
      returns (endIndex: int, endOffset: int)
    requires Extends(b, size, index, offset, c)
    ensures endIndex == c.endIndex && endOffset == c.endOffset
  {
    RecomputedEnd(b, size, index, offset, c);
    endOffset := BlkEndOffset(b.beginIndex, b.beginOffset, size + c.size);
    endIndex := BlkIndex(b.beginIndex, b.beginOffset, size + c.size);
  }

  lemma RecomputedEnd(b: Blks, size: int, index: int, offset: int, c: Chip)
    requires Extends(b, size, index, offset, c)
    ensures BlkIndex(b.beginIndex, b.beginOffset, size + c.size) == c.endIndex
    ensures BlkEndOffset(b.beginIndex, b.beginOffset, size + c.size) == c.endOffset
    ensures MergedBack(Adding(WithEnd(b, index, offset), size, false), c)
         == Adding(WithEnd(b, c.endIndex, c.endOffset), size + c.size, false)
  {
    GrownEnd(WithEnd(b, index, offset), c, size);
  }

  /** One round of the loop that merges behind. */
  lemma BehindRound(s0: Sys, s: Sys, b: Blks, size: int, index: int, offset: int, gone: Gone, id: nat) returns (t: Sys)
    requires BehindState(s0, s, b, size, index, offset, gone) && Coalesced(s0.chips)
    requires id in s.chips && Follows(s.chips[id], WithEnd(b, index, offset))
    ensures var c := s.chips[id];
            Extends(b, size, index, offset, c)
                && BehindState(s0, t, b, size + c.size, c.endIndex, c.endOffset, Neighbour(id))
    ensures t.chips == s.chips - {id} && |t.chips| < |s.chips|
  {
    var c := s.chips[id];
    AddingIs(s, Adding(WithEnd(b, index, offset), size, false));
    BehindOnce(s0.chips, s.chips, b, index, offset, gone, id);
    RecomputedEnd(b, size, index, offset, c);
    t := AbsorbsBack(s, WithEnd(b, index, offset), size, id);
    DoingSame(t, MergedBack(Adding(WithEnd(b, index, offset), size, false), c),
              Adding(WithEnd(b, c.endIndex, c.endOffset), size + c.size, false));
    Fewer(s.chips, id);
  }

  lemma AheadRound(s0: Sys, s: Sys, b: Blks, size: int, index: int, offset: int, gone: Gone, id: nat) returns (t: Sys)
    requires AheadState(s0, s, b, size, index, offset, gone) && Coalesced(s0.chips)
    requires id in s.chips && Precedes(s.chips[id], WithBegin(b, index, offset))
    ensures var c := s.chips[id]; AheadState(s0, t, b, size + c.size, c.beginIndex, c.beginOffset, Neighbour(id))
    ensures t.chips == s.chips - {id} && |t.chips| < |s.chips|
  {
    var c := s.chips[id];
    AheadOnce(s0.chips, s.chips, b, index, offset, gone, id);
    t := AbsorbsFront(s, WithBegin(b, index, offset), size, id);
    DoingSame(t, MergedFront(Adding(WithBegin(b, index, offset), size, true), c),
              Adding(WithBegin(b, c.beginIndex, c.beginOffset), size + c.size, true));
    Fewer(s.chips, id);
  }

  lemma Fewer(chips: map<nat, Chip>, id: nat)
    requires id in chips
    ensures |chips - {id}| < |chips|
  {
    assert (chips - {id}).Keys == chips.Keys - {id};
  }

  // ----- what the inserted chip is -----------------------------------------------------------

  /** Two chips never begin, and never end, at one place. */
  lemma OneNeighbour(s: Sys, i: nat, j: nat, b: Blks)
    requires Inv(s) && i in s.chips && j in s.chips && AllFree(s.chips)
    requires (Follows(s.chips[i], b) && Follows(s.chips[j], b)) || (Precedes(s.chips[i], b) && Precedes(s.chips[j], b))
    ensures i == j
  {
    var c, d := s.chips[i], s.chips[j];
    var x: Cell := if Follows(c, b) && Follows(d, b) then (c.vol, Lo(BlksOf(c))) else (c.vol, Hi(BlksOf(c)) - 1);
    assert In(x, Claims(s.chips, s.calls)[OfChip(i)]) && In(x, Claims(s.chips, s.calls)[OfChip(j)]);
  }

  /** The whole of `AddBlkChip`: `back` and `front` are the neighbours the two loops took. */
  lemma InsertedIs(s: Sys, mid: map<nat, Chip>, rest: map<nat, Chip>, b: Blks, g: Blks, size: int, back: Gone,
                   front: Gone, id: nat)
    requires Inv(s) && AllFree(s.chips) && Coalesced(s.chips) && id !in s.chips && BlksOk(b)
    requires g.vol == b.vol && BlksOk(g) && size == Hi(g) - Lo(g)
    requires BehindMerged(s.chips, mid, b, g.endIndex, g.endOffset, back)
             && NoneFollows(mid, WithEnd(b, g.endIndex, g.endOffset))
    requires AheadMerged(mid, rest, WithEnd(b, g.endIndex, g.endOffset), g.beginIndex, g.beginOffset, front)
             && NonePrecedes(rest, g)
    ensures Inserted(s.chips, rest[id := NewChip(g, size)], b, id)
  {
    var after := rest[id := NewChip(g, size)];
    forall j | j in s.chips ensures j in after <==> !Touches(s.chips[j], b) {
      if Follows(s.chips[j], b) && back.Neighbour? { OneNeighbour(s, j, back.id, b); }
      if Precedes(s.chips[j], b) && front.Neighbour? { OneNeighbour(s, j, front.id, b); }
    }
  }

  lemma StaysCoalesced(before: map<nat, Chip>, rest: map<nat, Chip>, g: Blks, size: int, id: nat)
    requires Coalesced(before) && forall j :: j in rest ==> j in before && rest[j] == before[j]
    requires NoneFollows(rest, g) && NonePrecedes(rest, g) && BlksOk(g)
    ensures Coalesced(rest[id := NewChip(g, size)])
  {
    var after := rest[id := NewChip(g, size)];
    forall i, j | i in after && j in after ensures !Meets(after[i], after[j]) {
      assert BlksOf(NewChip(g, size)) == g;
      if i == id && j == id { assert g.beginIndex != g.endIndex || g.beginOffset != g.endOffset; }
      if i == id && j != id { assert !Follows(rest[j], g); }
      if i != id && j == id { assert !Precedes(rest[i], g); }
      if i != id && j != id { assert !Meets(before[i], before[j]); }
    }
  }

  lemma StartsBehind(s: Sys, b: Blks)
    requires Inv(s) && Doing(s, Adding(b, Hi(b) - Lo(b), false)) && AllFree(s.chips)
    ensures BehindState(s, s, b, Hi(b) - Lo(b), b.endIndex, b.endOffset, Nobody)
  {
    DoingSame(s, Adding(b, Hi(b) - Lo(b), false), Adding(WithEnd(b, b.endIndex, b.endOffset), Hi(b) - Lo(b), false));
  }

  lemma StillCoalesced(before: map<nat, Chip>, chips: map<nat, Chip>)
    requires Coalesced(before) && forall j :: j in chips ==> j in before && chips[j] == before[j]
    ensures Coalesced(chips)
  {
    forall i, j | i in chips && j in chips ensures !Meets(chips[i], chips[j]) { assert !Meets(before[i], before[j]); }
  }

  lemma StartsAhead(s: Sys, b: Blks, size: int)
    requires Inv(s) && Doing(s, Adding(b, size, true)) && AllFree(s.chips)
    ensures AheadState(s, s, b, size, b.beginIndex, b.beginOffset, Nobody)
  {
    DoingSame(s, Adding(b, size, true), Adding(WithBegin(b, b.beginIndex, b.beginOffset), size, true));
  }

  /** Both loops are done: from `s0`, with `b` taken out of the callers' hands, the call has
      reached `s` and is about to insert the chip `g`. */
  ghost predicate Ready(s0: Sys, s: Sys, b: Blks, g: Blks, total: int, id: nat) {
    && Inv(s) && Doing(s, Adding(g, total, true)) && s.vols == s0.vols && s.held == s0.held - Cells(Range(b))
    && id !in s.chips && Changed(s0.chips, s.chips[id := NewChip(g, total)], b, id)
  }

  ghost predicate Changed(before: map<nat, Chip>, after: map<nat, Chip>, b: Blks, id: nat) {
    Inserted(before, after, b, id) && Coalesced(after) && AllFree(after)
  }

  lemma BothMerged(s0: Sys, s1: Sys, s2: Sys, s3: Sys, b: Blks, back: Gone, g: Blks, total: int, front: Gone, id: nat)
    requires Inv(s0) && AllFree(s0.chips) && Coalesced(s0.chips) && id !in s0.chips && BlksOk(b) && g.vol == b.vol
    requires BehindMerged(s0.chips, s1.chips, b, g.endIndex, g.endOffset, back)
             && NoneFollows(s1.chips, WithEnd(b, g.endIndex, g.endOffset))
    requires s2.chips == s1.chips && s2.vols == s0.vols && s2.held == s0.held - Cells(Range(b))
    requires AheadState(s2, s3, WithEnd(b, g.endIndex, g.endOffset), total, g.beginIndex, g.beginOffset, front)
    requires NonePrecedes(s3.chips, g)
             && g == WithBegin(WithEnd(b, g.endIndex, g.endOffset), g.beginIndex, g.beginOffset)
    ensures Ready(s0, s3, b, g, total, id)
  {
    AddingIs(s3, Adding(g, total, true));
    InsertedIs(s0, s1.chips, s3.chips, b, g, total, back, front, id);
    forall j | j in s3.chips ensures !Follows(s3.chips[j], g) {
      assert !Follows(s1.chips[j], WithEnd(b, g.endIndex, g.endOffset));
    }
    StaysCoalesced(s0.chips, s3.chips, g, total, id);
  }

  // ----- in positions ----------------------------------------------------------------------------

  /** No free chip ends where another one of its volume begins. */
  ghost predicate Apart(chips: map<nat, Chip>) {
    forall i, j :: i in chips && j in chips && chips[i].vol == chips[j].vol ==>
      Hi(BlksOf(chips[i])) != Lo(BlksOf(chips[j]))
  }

  /** The chip ends where the range `b` begins. */
  ghost predicate EndsAt(c: Chip, b: Blks) { c.vol == b.vol && Hi(BlksOf(c)) == Lo(b) }

  /** The chip begins where the range `b` ends. */
  ghost predicate BeginsAt(c: Chip, b: Blks) { c.vol == b.vol && Lo(BlksOf(c)) == Hi(b) }

  /** Freeing `b`: the chips that end where it begins or begin where it ends are gone; chip `id` is
      new and spans them and `b`; all others are as before. */
  ghost predicate Spliced(before: map<nat, Chip>, after: map<nat, Chip>, b: Blks, id: nat) {
    && id !in before && id in after && !after[id].lock && after[id].vol == b.vol
    && (forall j :: j in after && j != id ==> j in before && after[j] == before[j])
    && (forall j :: j in before ==> (j !in after <==> EndsAt(before[j], b) || BeginsAt(before[j], b)))
    && (forall j :: j in before && EndsAt(before[j], b) ==> Lo(BlksOf(after[id])) == Lo(BlksOf(before[j])))
    && (forall j :: j in before && BeginsAt(before[j], b) ==> Hi(BlksOf(after[id])) == Hi(BlksOf(before[j])))
    && ((forall j :: j in before ==> !EndsAt(before[j], b)) ==> Lo(BlksOf(after[id])) == Lo(b))
    && ((forall j :: j in before ==> !BeginsAt(before[j], b)) ==> Hi(BlksOf(after[id])) == Hi(b))
    && after[id].size == Hi(BlksOf(after[id])) - Lo(BlksOf(after[id]))
  }

  lemma FollowsIs(c: Chip, b: Blks)
    requires BlksOk(BlksOf(c)) && BlksOk(b)
    ensures Follows(c, b) <==> BeginsAt(c, b)
    ensures Precedes(c, b) <==> EndsAt(c, b)
  {
    if BeginsAt(c, b) { PositionUnique(c.beginIndex, c.beginOffset, b.endIndex, b.endOffset); }
    if EndsAt(c, b) { PositionUnique(c.endIndex, c.endOffset, b.beginIndex, b.beginOffset); }
  }

  lemma CoalescedApart(chips: map<nat, Chip>)
    requires Coalesced(chips) && forall id :: id in chips ==> ChipOk(chips[id])
    ensures Apart(chips)
  {
    forall i, j | i in chips && j in chips && chips[i].vol == chips[j].vol
      ensures Hi(BlksOf(chips[i])) != Lo(BlksOf(chips[j]))
    {
      assert ChipOk(chips[i]) && ChipOk(chips[j]) && !Meets(chips[i], chips[j]);
      FollowsIs(chips[j], BlksOf(chips[i]));
    }
  }

  lemma NeighboursAre(before: map<nat, Chip>, b: Blks)
    requires BlksOk(b) && forall id :: id in before ==> ChipOk(before[id])
    ensures forall j :: j in before ==> (Follows(before[j], b) <==> BeginsAt(before[j], b))
    ensures forall j :: j in before ==> (Precedes(before[j], b) <==> EndsAt(before[j], b))
  {
    forall j | j in before
      ensures (Follows(before[j], b) <==> BeginsAt(before[j], b)) && (Precedes(before[j], b) <==> EndsAt(before[j], b))
    {
      assert ChipOk(before[j]);
      FollowsIs(before[j], b);
    }
  }

  lemma InsertedSplices(s: Sys, after: map<nat, Chip>, b: Blks, id: nat)
    requires Inv(s) && AllFree(s.chips) && Inserted(s.chips, after, b, id) && BlksOk(b)
    ensures Spliced(s.chips, after, b, id)
  {
    NeighboursAre(s.chips, b);
    forall j | j in s.chips && EndsAt(s.chips[j], b)
      ensures Lo(BlksOf(after[id])) == Lo(BlksOf(s.chips[j]))
    {
      assert Precedes(s.chips[j], b);
      var k :| k in s.chips && Precedes(s.chips[k], b)
               && BeginsLike(BlksOf(s.chips[k]), after[id].beginIndex, after[id].beginOffset);
      OneNeighbour(s, j, k, b);
    }
    forall j | j in s.chips && BeginsAt(s.chips[j], b)
      ensures Hi(BlksOf(after[id])) == Hi(BlksOf(s.chips[j]))
    {
      assert Follows(s.chips[j], b);
      var k :| k in s.chips && Follows(s.chips[k], b)
               && EndsLike(BlksOf(s.chips[k]), after[id].endIndex, after[id].endOffset);
      OneNeighbour(s, j, k, b);
    }
  }

  /** What the call is about to insert makes the collection what it should be. */
  lemma ReadySplices(s0: Sys, s: Sys, b: Blks, g: Blks, total: int, id: nat)
    requires Inv(s0) && AllFree(s0.chips) && Ready(s0, s, b, g, total, id) && BlksOk(b)
    ensures var after := s.chips[id := NewChip(g, total)]; Spliced(s0.chips, after, b, id) && Apart(after)
  {
    var after := s.chips[id := NewChip(g, total)];
    AddingIs(s, Adding(g, total, true));
    forall j | j in after ensures ChipOk(after[j]) { }
    InsertedSplices(s0, after, b, id);
    CoalescedApart(after);
  }

  /** A free chip fits exactly if its span is large enough. */
  lemma SpanFits(chips: map<nat, Chip>, size: int)
    requires AllFree(chips) && forall id :: id in chips ==> ChipOk(chips[id])
    ensures NoChipFits(chips, size) <==>
              forall id :: id in chips ==> Hi(BlksOf(chips[id])) - Lo(BlksOf(chips[id])) < DataAlign(size)
  {
    forall id | id in chips
      ensures Fits(chips[id], size) <==> DataAlign(size) <= Hi(BlksOf(chips[id])) - Lo(BlksOf(chips[id]))
    {
      assert ChipOk(chips[id]);
    }
  }

  // ----- what an allocation does --------------------------------------------------------------

  ghost predicate NoChipFits(chips: map<nat, Chip>, size: int) { forall id :: id in chips ==> !Fits(chips[id], size) }

  predicate VolumeFits(vols: map<int, Volume>, v: int, size: int) { v in vols && DataAlign(size) <= vols[v].reserved }

  /** The extent `b` was cut off the end of chip `id`; an emptied chip is gone. */
  ghost predicate CutFrom(before: map<nat, Chip>, after: map<nat, Chip>, b: Blks, id: nat) {
    && id in before && before[id].vol == b.vol && Lo(BlksOf(before[id])) <= Lo(b) && Hi(b) == Hi(BlksOf(before[id]))
    && after == if Lo(b) == Lo(BlksOf(before[id])) then before - {id}
                else before[id := NewChip(WithEnd(BlksOf(before[id]), b.beginIndex, b.beginOffset),
                                          Lo(b) - Lo(BlksOf(before[id])))]
  }

  /** The extent `b` is the next part of its volume that was never handed out. */
  ghost predicate TakenFrom(before: map<int, Volume>, after: map<int, Volume>, b: Blks) {
    && b.vol in before
    && var v := before[b.vol];
       && Lo(b) == v.curPosition && Hi(b) - Lo(b) <= v.reserved
       && after == before[b.vol := v.(curPosition := Hi(b), reserved := v.reserved - (Hi(b) - Lo(b)))]
  }

  /** The queue after its first `n` volumes have been tried. */
  function Rotated(q: seq<int>, n: nat): seq<int>
    requires n <= |q|
  {
    q[n..] + q[..n]
  }

  /** Volumes were tried in queue order until the `n`th, which is `v`, the first with enough reserve;
      those tried have gone to the end of the queue. */
  ghost predicate FirstFit(vols: map<int, Volume>, q: seq<int>, after: seq<int>, v: int, size: int, n: nat) {
    && n < |q| && q[n] == v && v in vols && DataAlign(size) <= vols[v].reserved
    && (forall j :: 0 <= j < n && q[j] in vols ==> vols[q[j]].reserved < DataAlign(size))
    && after == q[n + 1..] + q[..n + 1]
  }

  /** The caller gets exactly the aligned size, out of bytes nobody held. */
  ghost predicate HandedOut(before: iset<Cell>, after: iset<Cell>, b: Blks, size: int) {
    && BlksOk(b) && Hi(b) - Lo(b) == DataAlign(size)
    && Cells(Range(b)) !! before && after == before + Cells(Range(b))
  }

  /** What the carver writes is the chip up to where the carved tail begins. */
  lemma CarvedShape(c: Chip, size: int)
    requires ChipOk(c) && Fits(c, size) && SizeOk(size)
    ensures var b := Tail(c, size);
            && BlksOk(b) && Hi(b) == Hi(BlksOf(c)) && Lo(b) == Hi(BlksOf(c)) - DataAlign(size)
               && c.size == Hi(BlksOf(c)) - Lo(BlksOf(c))
            && CarvedChip(Locked(c, size), b)
               == NewChip(WithEnd(BlksOf(c), b.beginIndex, b.beginOffset), Lo(b) - Lo(BlksOf(c)))
  {
    TailRange(c, size);
  }

  function Remaining(chips: map<nat, Chip>, id: nat, size: int): map<nat, Chip>
    requires id in chips
  {
    var c := chips[id];
    var locked := chips[id := Locked(c, size)];
    if c.size - DataAlign(size) > 0 then locked[id := CarvedChip(locked[id], Tail(c, size))] else locked - {id}
  }

  lemma CarvedAway(chips: map<nat, Chip>, id: nat, size: int)
    requires AllFree(chips) && id in chips && ChipOk(chips[id]) && Fits(chips[id], size) && SizeOk(size)
    ensures var b := Tail(chips[id], size);
            && BlksOk(b) && Hi(b) - Lo(b) == DataAlign(size) && CutFrom(chips, Remaining(chips, id, size), b, id)
            && AllFree(Remaining(chips, id, size))
  {
    var c := chips[id];
    CarvedShape(c, size);
    var d := CarvedChip(Locked(c, size), Tail(c, size));
    assert chips[id := Locked(c, size)][id := d] == chips[id := d];
    assert chips[id := Locked(c, size)] - {id} == chips - {id};
  }

  /** No chip begins inside another. */
  lemma BeginsOutside(s: Sys, i: nat, j: nat)
    requires Inv(s) && i in s.chips && j in s.chips && AllFree(s.chips) && i != j && s.chips[i].vol == s.chips[j].vol
    ensures !(Lo(BlksOf(s.chips[i])) <= Lo(BlksOf(s.chips[j])) < Hi(BlksOf(s.chips[i])))
  {
    var x: Cell := (s.chips[j].vol, Lo(BlksOf(s.chips[j])));
    assert In(x, Claims(s.chips, s.calls)[OfChip(j)]);
    assert !In(x, Claims(s.chips, s.calls)[OfChip(i)]);
  }

  /** Cutting tails off makes no neighbours. */
  lemma CutCoalesced(s: Sys, after: map<nat, Chip>, b: Blks, id: nat)
    requires Inv(s) && AllFree(s.chips) && Coalesced(s.chips) && CutFrom(s.chips, after, b, id) && BlksOk(b)
    ensures Coalesced(after)
  {
    forall i, j | i in after && j in after ensures !Meets(after[i], after[j]) {
      if i == id { CutEnd(s, after, b, id, j); } else { assert !Meets(s.chips[i], s.chips[j]); }
    }
  }

  lemma CutEnd(s: Sys, after: map<nat, Chip>, b: Blks, id: nat, j: nat)
    requires Inv(s) && AllFree(s.chips) && CutFrom(s.chips, after, b, id) && BlksOk(b) && id in after && j in after
    ensures !Meets(after[id], after[j])
  {
    if j == id {
      assert Lo(b) != Lo(BlksOf(s.chips[id]));
    } else if s.chips[id].vol == s.chips[j].vol {
      BeginsOutside(s, id, j);
    }
  }

  lemma FirstFound(vols: map<int, Volume>, q: seq<int>, after: seq<int>, v: int, size: int, n: nat)
    requires n < |q| && q[n] == v && VolumeFits(vols, v, size) && after == Rotated(q, n + 1)
    requires forall j :: 0 <= j < n ==> !VolumeFits(vols, q[j], size)
    ensures FirstFit(vols, q, after, v, size, n)
  {
    forall j | 0 <= j < n && q[j] in vols ensures vols[q[j]].reserved < DataAlign(size) {
      assert !VolumeFits(vols, q[j], size);
    }
  }

  lemma RotatedOnce(q: seq<int>, n: nat)
    requires n < |q|
    ensures Rotated(q, n)[0] == q[n] && Rotated(Rotated(q, n), 1) == Rotated(q, n + 1)
  {
  }

  /** Locking chip `id` and finishing the carve, seen as one. */
  lemma Carves(s: Sys, id: nat, size: int) returns (t: Sys)
    requires Inv(s) && Idle(s) && AllFree(s.chips) && Coalesced(s.chips) && id in s.chips && Fits(s.chips[id], size)
             && SizeOk(size)
    ensures Inv(t) && Idle(t) && t.vols == s.vols && t.chips == Remaining(s.chips, id, size)
    ensures AllFree(t.chips) && Coalesced(t.chips)
    ensures HandedOut(s.held, t.held, Tail(s.chips[id], size), size)
            && CutFrom(s.chips, t.chips, Tail(s.chips[id], size), id)
  {
    CarvedAway(s.chips, id, size);
    CutCoalesced(s, Remaining(s.chips, id, size), Tail(s.chips[id], size), id);
    var l := Locks(s, id, size);
    t := Finishes(l, Carver(id, s.chips[id], size));
  }

  /** The extent an allocation takes from the end of a chip. */
  method CutTail(c: Chip, allocSize: int, ghost size: int) returns (b: Blks)
    requires allocSize == DataAlign(size)
    ensures b == Tail(c, size)
  {
    b := Blks(c.vol, BlkIndex(c.endIndex, c.endOffset, -allocSize),
              OffsetOf(BeginPos(c.endIndex, c.endOffset) - allocSize), c.endIndex, c.endOffset);
  }

  class RegmHandler {
    var chips: map<nat, Chip>
    var nextId: nat
    var vols: map<int, Volume>
    var queue: seq<int>
    /** The same state with what the callers hold. */
    ghost var sys: Sys

    ghost predicate Valid()
      reads this
    {
      && Inv(sys) && Idle(sys) && sys.chips == chips && sys.vols == vols
      && AllFree(chips) && Coalesced(chips)
      && (forall id :: id in chips ==> id < nextId)
      && (forall v :: v in vols ==> 0 < v)
      && (forall k :: 0 <= k < |queue| ==> queue[k] in vols)
    }

    constructor ()
      ensures Valid() && chips == map[] && vols == map[] && queue == [] && sys.held == iset{}
    {
      chips, nextId, vols, queue, sys := map[], 0, map[], [], Sys(map[], map[], map[], iset{});
      EmptyIsGood();
    }

    method FindFollowing(b: Blks) returns (found: bool, id: nat)
      ensures found ==> id in chips && !chips[id].lock && Follows(chips[id], b)
      ensures !found ==> forall j :: j in chips && !chips[j].lock ==> !Follows(chips[j], b)
    {
      if j: nat :| j in chips && !chips[j].lock && Follows(chips[j], b) {
        return true, j;
      }
      return false, 0;
    }

    method FindPreceding(b: Blks) returns (found: bool, id: nat)
      ensures found ==> id in chips && !chips[id].lock && Precedes(chips[id], b)
      ensures !found ==> forall j :: j in chips && !chips[j].lock ==> !Precedes(chips[j], b)
    {
      if j: nat :| j in chips && !chips[j].lock && Precedes(chips[j], b) {
        return true, j;
      }
      return false, 0;
    }

    /** The first loop of `AddBlkChip`: merges the chips behind the range. */
    method MergeBehind(b: Blks) returns (size: int, endIndex: int, endOffset: int, ghost gone: Gone)
      requires BehindState(sys, sys, b, Hi(b) - Lo(b), b.endIndex, b.endOffset, Nobody) && Coalesced(sys.chips)
               && sys.chips == chips
      modifies this`chips, this`sys
      ensures BehindState(old(sys), sys, b, size, endIndex, endOffset, gone) && sys.chips == chips
      ensures NoneFollows(chips, WithEnd(b, endIndex, endOffset))
    {
      ghost var s0 := sys;
      size, endIndex, endOffset, gone := Hi(b) - Lo(b), b.endIndex, b.endOffset, Nobody;
      var found, id := FindFollowing(WithEnd(b, endIndex, endOffset));
      while found
        invariant BehindState(s0, sys, b, size, endIndex, endOffset, gone) && sys.chips == chips
        invariant if found then id in chips && Follows(chips[id], WithEnd(b, endIndex, endOffset))
                  else NoneFollows(chips, WithEnd(b, endIndex, endOffset))
        decreases |chips|
      {
        size, endIndex, endOffset, gone := TakeFollowing(s0, b, size, endIndex, endOffset, gone, id);
        found, id := FindFollowing(WithEnd(b, endIndex, endOffset));
      }
    }

    /** One round: the chip found leaves the collection and the end is recomputed. */
    method TakeFollowing(ghost s0: Sys, b: Blks, size: int, endIndex: int, endOffset: int, ghost gone: Gone, id: nat)
      returns (size': int, endIndex': int, endOffset': int, ghost gone': Gone)
      requires BehindState(s0, sys, b, size, endIndex, endOffset, gone) && Coalesced(s0.chips) && sys.chips == chips
      requires id in chips && Follows(chips[id], WithEnd(b, endIndex, endOffset))
      modifies this`chips, this`sys
      ensures BehindState(s0, sys, b, size', endIndex', endOffset', gone') && sys.chips == chips
              && |chips| < |old(chips)|
    {
      ghost var t := BehindRound(s0, sys, b, size, endIndex, endOffset, gone, id);
      size', gone' := size + chips[id].size, Neighbour(id);
      endIndex', endOffset' := Recompute(b, size, endIndex, endOffset, chips[id]);
      chips, sys := chips - {id}, t;
    }

    /** The second loop: merges the chips ahead of the range. */
    method MergeAhead(b: Blks, oldSize: int) returns (size: int, beginIndex: int, beginOffset: int, ghost gone: Gone)
      requires AheadState(sys, sys, b, oldSize, b.beginIndex, b.beginOffset, Nobody) && Coalesced(sys.chips)
               && sys.chips == chips
      modifies this`chips, this`sys
      ensures AheadState(old(sys), sys, b, size, beginIndex, beginOffset, gone) && sys.chips == chips
      ensures NonePrecedes(chips, WithBegin(b, beginIndex, beginOffset))
    {
      ghost var s0 := sys;
      size, beginIndex, beginOffset, gone := oldSize, b.beginIndex, b.beginOffset, Nobody;
      var found, id := FindPreceding(WithBegin(b, beginIndex, beginOffset));
      while found
        invariant AheadState(s0, sys, b, size, beginIndex, beginOffset, gone) && sys.chips == chips
        invariant if found then id in chips && Precedes(chips[id], WithBegin(b, beginIndex, beginOffset))
                  else NonePrecedes(chips, WithBegin(b, beginIndex, beginOffset))
        decreases |chips|
      {
        size, beginIndex, beginOffset, gone := TakePreceding(s0, b, size, beginIndex, beginOffset, gone, id);
        found, id := FindPreceding(WithBegin(b, beginIndex, beginOffset));
      }
    }

    /** One round: the chip found leaves the collection and its begin is taken over. */
    method TakePreceding(ghost s0: Sys, b: Blks, size: int, beginIndex: int, beginOffset: int, ghost gone: Gone,
                         id: nat)
      returns (size': int, beginIndex': int, beginOffset': int, ghost gone': Gone)
      requires AheadState(s0, sys, b, size, beginIndex, beginOffset, gone) && Coalesced(s0.chips) && sys.chips == chips
      requires id in chips && Precedes(chips[id], WithBegin(b, beginIndex, beginOffset))
      modifies this`chips, this`sys
      ensures AheadState(s0, sys, b, size', beginIndex', beginOffset', gone') && sys.chips == chips
              && |chips| < |old(chips)|
    {
      ghost var t := AheadRound(s0, sys, b, size, beginIndex, beginOffset, gone, id);
      size', gone' := size + chips[id].size, Neighbour(id);
      beginIndex', beginOffset' := chips[id].beginIndex, chips[id].beginOffset;
      chips, sys := chips - {id}, t;
    }

    /** Both loops of `AddBlkChip`. */
    method Coalesce(b: Blks, ghost id: nat) returns (g: Blks, total: int)
      requires Inv(sys) && Idle(sys) && sys.chips == chips && AllFree(chips) && Coalesced(chips) && id !in chips
      requires BlksOk(b) && Cells(Range(b)) <= sys.held
      modifies this`chips, this`sys
      ensures Ready(old(sys), sys, b, g, total, id) && sys.chips == chips
    {
      ghost var s0 := sys;
      sys := Begins(sys, b);
      StartsBehind(sys, b);
      var size, endIndex, endOffset, back := MergeBehind(b);
      ghost var s1 := sys;
      sys := Turns(sys, WithEnd(b, endIndex, endOffset), size);
      ghost var s2 := sys;
      StartsAhead(s2, WithEnd(b, endIndex, endOffset), size);
      StillCoalesced(s0.chips, s1.chips);
      var size', beginIndex, beginOffset, front := MergeAhead(WithEnd(b, endIndex, endOffset), size);
      g, total := Blks(b.vol, beginIndex, beginOffset, endIndex, endOffset), size';
      BothMerged(s0, s1, s2, sys, b, back, g, total, front, id);
    }

    /** Takes back the range `blksInfo`. */
    method AddBlkChip(blksInfo: Blks) returns (r: AddResult)
      requires Valid() && (ParamsOk(blksInfo) ==> BlksOk(blksInfo) && Cells(Range(blksInfo)) <= sys.held)
      modifies this
      ensures Valid() && vols == old(vols) && queue == old(queue)
      ensures r == AddParamError <==>
                || blksInfo.beginIndex < 0 || blksInfo.endIndex < blksInfo.beginIndex || blksInfo.endOffset < 0
                || blksInfo.beginOffset > BLK_SIZE || blksInfo.endOffset > BLK_SIZE
                || blksInfo.beginOffset % 16 != 0 || blksInfo.endOffset % 16 != 0
      ensures r == AddParamError ==> chips == old(chips) && sys.held == old(sys.held)
      ensures r == Added ==> sys.held == old(sys.held) - Cells(Range(blksInfo))
      ensures r == Added ==> Spliced(old(chips), chips, blksInfo, old(nextId)) && Apart(chips)
    {
      ParamsAre(blksInfo);
      if !ParamsOk(blksInfo) { return AddParamError; }
      MergeAndInsert(blksInfo);
      return Added;
    }

    /** Merges the range with its neighbours and inserts the result. */
    method MergeAndInsert(b: Blks)
      requires Valid() && BlksOk(b) && Cells(Range(b)) <= sys.held
      modifies this`chips, this`sys, this`nextId
      ensures Valid() && sys.held == old(sys.held) - Cells(Range(b))
      ensures Spliced(old(chips), chips, b, old(nextId)) && Apart(chips)
    {
      ghost var s0 := sys;
      var g, total := Coalesce(b, nextId);
      ReadySplices(s0, sys, b, g, total, nextId);
      sys := Inserts(sys, g, total, nextId);
      chips := chips[nextId := NewChip(g, total)];
      nextId := nextId + 1;
    }

    method FindFitting(size: int) returns (found: bool, id: nat)
      ensures found ==> id in chips && Fits(chips[id], size)
      ensures !found ==> NoChipFits(chips, size)
    {
      if j: nat :| j in chips && Fits(chips[j], size) {
        return true, j;
      }
      return false, 0;
    }

    /** Locks chip `id`, then moves its end, or deletes it when nothing is left. */
    method CarveChip(id: nat, size: int) returns (b: Blks)
      requires Valid() && id in chips && Fits(chips[id], size) && SizeOk(size)
      modifies this`chips, this`sys
      ensures Valid() && HandedOut(old(sys.held), sys.held, b, size) && CutFrom(old(chips), chips, b, id)
    {
      var c, allocSize := chips[id], DataAlign(size);
      ghost var t := Carves(sys, id, size);
      chips := chips[id := c.(size := c.size - allocSize, lock := true)];
      b := CutTail(c, allocSize, size);
      var newSize := c.size - allocSize;
      if newSize > 0 {
        chips := chips[id := chips[id].(endIndex := b.beginIndex, endOffset := b.beginOffset, lock := false)];
      } else {
        chips := chips - {id};
      }
      sys := t;
    }

    /** `_get_volume_id`: the front of the queue goes to its end. */
    method NextVolume() returns (v: int)
      requires |queue| > 0
      modifies this`queue
      ensures v == old(queue)[0] && queue == Rotated(old(queue), 1)
    {
      v := queue[0];
      queue := queue[1..] + [v];
    }

    /** The update of the volume's document that moves its position. */
    method BumpVolume(v: int, size: int) returns (b: Blks)
      requires Valid() && VolumeFits(vols, v, size) && SizeOk(size)
      modifies this`vols, this`sys
      ensures Valid() && b.vol == v && HandedOut(old(sys.held), sys.held, b, size) && TakenFrom(old(vols), vols, b)
    {
      var curp, allocSize := vols[v].curPosition, DataAlign(size);
      BumpShape(sys, v, size);
      assert Aligned(curp);
      sys := Bumps(sys, v, size);
      vols := vols[v := vols[v].(curPosition := vols[v].curPosition + allocSize,
                                 reserved := vols[v].reserved - allocSize)];
      b := Blks(v, IndexOf(curp), OffsetOf(curp), IndexOf(curp + allocSize), OffsetOf(curp + allocSize));
    }

    /** Tries every volume of the queue once, in order. */
    method AllocateFromVolumes(size: int) returns (r: AllocateResult)
      requires Valid() && SizeOk(size)
      modifies this`vols, this`sys, this`queue
      ensures Valid() && (r.Allocated? || r == NoSpace)
      ensures r == NoSpace <==>
                forall v :: v in old(queue) && v in old(vols) ==> old(vols)[v].reserved < DataAlign(size)
      ensures r == NoSpace ==> vols == old(vols) && sys == old(sys) && queue == old(queue)
      ensures r.Allocated? ==> HandedOut(old(sys.held), sys.held, r.blks, size) && TakenFrom(old(vols), vols, r.blks)
      ensures r.Allocated? ==> exists n: nat :: FirstFit(old(vols), old(queue), queue, r.blks.vol, size, n)
    {
      ghost var n;
      r, n := TryVolumes(size);
    }

    /** The loop of `AllocateBlks` over the queue; `n` volumes were in vain. */
    method TryVolumes(size: int) returns (r: AllocateResult, ghost n: nat)
      requires Valid() && SizeOk(size)
      modifies this`vols, this`sys, this`queue
      ensures Valid() && (r.Allocated? || r == NoSpace)
      ensures r == NoSpace ==> vols == old(vols) && sys == old(sys) && queue == old(queue)
      ensures r == NoSpace ==> forall j :: 0 <= j < |old(queue)| ==> !VolumeFits(old(vols), old(queue)[j], size)
      ensures r.Allocated? ==> HandedOut(old(sys.held), sys.held, r.blks, size) && TakenFrom(old(vols), vols, r.blks)
      ensures r.Allocated? ==> FirstFit(old(vols), old(queue), queue, r.blks.vol, size, n)
    {
      ghost var q := queue;
      var loopCount := |queue|;
      n := 0;
      while loopCount > 0
        invariant 0 <= loopCount <= |q| && n == |q| - loopCount && queue == Rotated(q, n)
        invariant forall j :: 0 <= j < n ==> !VolumeFits(vols, q[j], size)
        invariant Valid() && vols == old(vols) && sys == old(sys)
      {
        var v := NextVolume();
        RotatedOnce(q, n);
        if v in vols && DataAlign(size) <= vols[v].reserved {
          FirstFound(vols, q, queue, v, size, n);
          var b := BumpVolume(v, size);
          return Allocated(b), n;
        }
        loopCount, n := loopCount - 1, n + 1;
      }
      return NoSpace, n;
    }

    /** Hands out an extent of the aligned size: the tail of a free chip that spans as much, if there
        is one, else of a volume's unused part. */
    method AllocateBlks(size: int) returns (r: AllocateResult)
      requires Valid()
      modifies this
      ensures Valid() && Apart(chips)
      ensures r == AllocateParamError <==> size <= 0 || size > OBJECT_MAX_SIZE
      ensures r == NoSpace <==>
                && 0 < size <= OBJECT_MAX_SIZE
                && (forall id :: id in old(chips) ==>
                      Hi(BlksOf(old(chips)[id])) - Lo(BlksOf(old(chips)[id])) < DataAlign(size))
                && (forall v :: v in old(queue) && v in old(vols) ==> old(vols)[v].reserved < DataAlign(size))
      ensures !r.Allocated? ==> chips == old(chips) && vols == old(vols) && queue == old(queue) && sys == old(sys)
      ensures r.Allocated? ==> HandedOut(old(sys.held), sys.held, r.blks, size)
      ensures r.Allocated? ==>
                if forall id :: id in old(chips) ==>
                     Hi(BlksOf(old(chips)[id])) - Lo(BlksOf(old(chips)[id])) < DataAlign(size)
                then
                  && chips == old(chips) && TakenFrom(old(vols), vols, r.blks)
                  && exists n: nat :: FirstFit(old(vols), old(queue), queue, r.blks.vol, size, n)
                else
                  vols == old(vols) && queue == old(queue) && exists id :: CutFrom(old(chips), chips, r.blks, id)
    {
      CoalescedApart(chips);
      SpanFits(chips, size);
      if size <= 0 || size > OBJECT_MAX_SIZE { return AllocateParamError; }
      var found, id := FindFitting(size);
      if found {
        var b := CarveChip(id, size);
        CoalescedApart(chips);
        return Allocated(b);
      }
      r := AllocateFromVolumes(size);
    }

    /** A volume comes online; registering it again never changes its size or position. */
    method RegisterVolume(vol: int, blkCount: int) returns (r: RegisterResult)
      requires Valid()
      modifies this
      ensures Valid() && chips == old(chips) && queue == old(queue) && sys.held == old(sys.held)
      ensures r == RegisterParamError <==> blkCount < 0 || vol <= 0
      ensures r == CutOff <==>
                0 <= blkCount && 0 < vol && vol in old(vols) && old(vols)[vol].curPosition > blkCount * BLK_SIZE
      ensures r != Registered ==> vols == old(vols)
      ensures r == Registered && vol in old(vols) ==> vols == old(vols)[vol := old(vols)[vol].(online := true)]
      ensures r == Registered && vol !in old(vols) ==>
                vols == old(vols)[vol := Volume(blkCount, 0, blkCount * BLK_SIZE, true)]
    {
      if blkCount < 0 || vol <= 0 { return RegisterParamError; }
      var known := vol in vols;
      if !known {
        sys := Registers(sys, vol, blkCount);
        vols := vols[vol := Volume(blkCount, 0, blkCount * BLK_SIZE, false)];
      }
      if known && vols[vol].curPosition > blkCount * BLK_SIZE { return CutOff; }
      SetOnline(vol, true);
      return Registered;
    }

    method SetOnline(vol: int, online: bool)
      requires Valid() && vol in vols
      modifies this`vols, this`sys
      ensures Valid() && sys.held == old(sys.held) && vols == old(vols)[vol := old(vols)[vol].(online := online)]
    {
      sys := SetsOnline(sys, vol, online);
      vols := vols[vol := vols[vol].(online := online)];
    }

    /** `_rebuild_sn_queue`: the queue becomes the online volumes, each once. */
    method RebuildQueue()
      requires Valid()
      modifies this`queue
      ensures Valid()
      ensures forall v :: v in queue <==> v in vols && vols[v].online
      ensures forall i, j :: 0 <= i < j < |queue| ==> queue[i] != queue[j]
    {
      var docs := set v | v in vols && vols[v].online;
      queue := [];
      while exists v :: v in docs
        invariant forall v :: v in vols && vols[v].online <==> v in docs || v in queue
        invariant forall v :: v in docs ==> v !in queue
        invariant forall i, j :: 0 <= i < j < |queue| ==> queue[i] != queue[j]
        decreases |docs|
      {
        var v :| v in docs;
        queue := queue + [v];
        docs := docs - {v};
      }
    }

    /** `ManageMessage`: enables or disables a volume. */
    method Manage(vol: int, online: bool) returns (r: ManageResult)
      requires Valid()
      modifies this
      ensures Valid() && chips == old(chips) && sys.held == old(sys.held)
      ensures r == NoVolume <==> vol !in old(vols)
      ensures r == NoVolume ==> vols == old(vols) && queue == old(queue)
      ensures r == Done ==> vols == old(vols)[vol := old(vols)[vol].(online := online)]
      ensures r == Done ==> forall v :: v in queue <==> v in vols && vols[v].online
    {
      if vol !in vols { return NoVolume; }
      SetOnline(vol, online);
      RebuildQueue();
      return Done;
    }
  }
}
