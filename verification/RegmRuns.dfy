/** What the allocator's calls promise over every interleaving of their database operations. */
module RegmRuns {
  import opened Layout
  import opened Ownership
  import opened RegmSpec
  import opened RegmProof

  // ----- the unique index --------------------------------------------------------------------

  /** Every locked chip has a carver that will unlock or delete it. */
  ghost predicate Tended(s: Sys) {
    forall id :: id in s.chips && s.chips[id].lock ==> HasCarver(s.calls, id)
  }

  ghost predicate HasCarver(calls: map<nat, Call>, id: nat) { exists p :: p in calls && CarvesChip(calls[p], id) }

  predicate CarvesChip(a: Call, id: nat) { a.Carving? && a.id == id }

  lemma PutKeepsCarver(calls: map<nat, Call>, pid: nat, a: Call, id: nat)
    requires HasCarver(calls, id) && (pid in calls ==> calls[pid].Adding?)
    ensures HasCarver(calls[pid := a], id)
  {
    var p :| p in calls && CarvesChip(calls[p], id);
    assert p in calls[pid := a] && CarvesChip(calls[pid := a][p], id);
  }

  lemma DropKeepsCarver(calls: map<nat, Call>, pid: nat, id: nat)
    requires HasCarver(calls, id) && pid in calls && !CarvesChip(calls[pid], id)
    ensures HasCarver(calls - {pid}, id)
  {
    var p :| p in calls && CarvesChip(calls[p], id);
    assert p in calls - {pid} && CarvesChip((calls - {pid})[p], id);
  }

  /** No step but its carver's last one takes a locked chip's carver away. */
  lemma CarverKept(s: Sys, t: Step, id: nat)
    requires Enabled(s, t) && HasCarver(s.calls, id) && (t.FinishCarve? ==> CallOk(s.chips, s.calls[t.pid]))
    ensures HasCarver(Apply(s, t).calls, id) || (t.FinishCarve? && CarvesChip(s.calls[t.pid], id))
  {
    if t.FinishCarve? {
      if !CarvesChip(s.calls[t.pid], id) { DropKeepsCarver(s.calls, t.pid, id); }
    } else if t.Insert? {
      DropKeepsCarver(s.calls, t.pid, id);
    } else if t.BeginAdd? || t.MergeBack? || t.TurnForward? || t.MergeFront? || t.LockChip? {
      PutKeepsCarver(s.calls, t.pid, Apply(s, t).calls[t.pid], id);
    }
  }

  /** Chips become locked only by the step that records their carver. */
  lemma LockedBefore(s: Sys, t: Step, id: nat)
    requires Enabled(s, t) && (t.FinishCarve? ==> CallOk(s.chips, s.calls[t.pid]))
    requires id in Apply(s, t).chips && Apply(s, t).chips[id].lock
    ensures (id in s.chips && s.chips[id].lock) || HasCarver(Apply(s, t).calls, id)
    ensures t.FinishCarve? ==> !CarvesChip(s.calls[t.pid], id)
  {
    assert t.LockChip? && id == t.id ==> CarvesChip(Apply(s, t).calls[t.pid], id);
  }

  lemma TendedKeeps(s: Sys, t: Step)
    requires Inv(s) && Tended(s) && Enabled(s, t)
    ensures Tended(Apply(s, t))
  {
    var u := Apply(s, t);
    forall id | id in u.chips && u.chips[id].lock ensures HasCarver(u.calls, id) {
      LockedBefore(s, t, id);
      if id in s.chips && s.chips[id].lock { CarverKept(s, t, id); }
    }
  }

  /** The byte a document begins at belongs to it, or to the call that carves it. */
  lemma FirstByte(s: Sys, id: nat) returns (k: Claim)
    requires Inv(s) && Tended(s) && id in s.chips
    ensures k in Claims(s.chips, s.calls) && In((s.chips[id].vol, Lo(BlksOf(s.chips[id]))), Claims(s.chips, s.calls)[k])
    ensures k == OfChip(id) || (k.OfCall? && CarvesChip(s.calls[k.pid], id))
  {
    var c := s.chips[id];
    if !c.lock || 0 < c.size { return OfChip(id); }
    var p :| p in s.calls && CarvesChip(s.calls[p], id);
    return OfCall(p);
  }

  /** No two documents of a volume begin at one address, locked or not: no insert, no lock and
      no unlock ever runs into the unique index. */
  lemma IndexUnique(s: Sys, i: nat, j: nat)
    requires Inv(s) && Tended(s) && i in s.chips && j in s.chips && s.chips[i].vol == s.chips[j].vol
    requires s.chips[i].beginIndex == s.chips[j].beginIndex && s.chips[i].beginOffset == s.chips[j].beginOffset
    ensures i == j
  {
    var k := FirstByte(s, i);
    var l := FirstByte(s, j);
    assert k == l;
  }

  // ----- whole runs ----------------------------------------------------------------------------

  ghost predicate Good(s: Sys) { Inv(s) && Tended(s) }

  ghost predicate IsRun(states: seq<Sys>, steps: seq<Step>) {
    && |states| == |steps| + 1
    && forall i :: 0 <= i < |steps| ==> Enabled(states[i], steps[i]) && states[i + 1] == Apply(states[i], steps[i])
  }

  lemma NothingOwned()
    ensures Partition(Claims(map[], map[]), iset{}, Cur(map[]))
  {
  }

  lemma NothingListed()
    ensures DocsOk(map[], map[]) && VolumesOk(map[])
  {
  }

  lemma EmptyIsGood()
    ensures Good(Sys(map[], map[], map[], iset{}))
  {
    var s := Sys(map[], map[], map[], iset{});
    assert Owned(s) by { NothingOwned(); }
    assert DocsOk(s.chips, s.calls) && VolumesOk(s.vols) by { NothingListed(); }
  }

  lemma {:induction false} RunKeeps(states: seq<Sys>, steps: seq<Step>, i: nat)
    requires IsRun(states, steps) && Good(states[0]) && i < |states|
    ensures Good(states[i])
  {
    if i > 0 {
      RunKeeps(states, steps, i - 1);
      StepKeeps(states[i - 1], steps[i - 1]);
      TendedKeeps(states[i - 1], steps[i - 1]);
    }
  }

  /** The bytes a step hands to its caller. */
  ghost function Granted(s: Sys, t: Step): iset<Cell>
    requires Enabled(s, t)
  {
    match t
    case FinishCarve(pid) => Cells(Range(s.calls[pid].blks))
    case BumpVolume(vol, size) => Cells(Range(Fresh(vol, s.vols[vol].curPosition, size)))
    case _ => iset{}
  }

  /** The bytes a step takes back from its caller. */
  ghost function Returned(t: Step): iset<Cell> {
    if t.BeginAdd? then Cells(Range(t.blks)) else iset{}
  }

  lemma HeldIs(s: Sys, t: Step)
    requires Enabled(s, t) && (t.FinishCarve? ==> CallOk(s.chips, s.calls[t.pid]))
    ensures Apply(s, t).held == s.held - Returned(t) + Granted(s, t)
    ensures Returned(t) <= s.held
  {
  }

  /** What a step hands out nobody held before. */
  lemma GrantsAreFresh(s: Sys, t: Step)
    requires Good(s) && Enabled(s, t)
    ensures Granted(s, t) !! s.held
  {
    if t.FinishCarve? { FinishCarveKeeps(s, t.pid); }
    if t.BumpVolume? { BumpKeeps(s, t.vol, t.size); }
  }

  /** Some step from `i` on and before `j` takes byte `c` back. */
  ghost predicate ReturnedBetween(steps: seq<Step>, i: nat, j: nat, c: Cell) {
    exists k :: i <= k < j && k < |steps| && c in Returned(steps[k])
  }

  lemma ByteMoves(s: Sys, t: Step, c: Cell)
    requires Good(s) && Enabled(s, t)
    ensures c in s.held ==> c in Apply(s, t).held || c in Returned(t)
    ensures c in Granted(s, t) ==> c !in s.held && c in Apply(s, t).held
  {
    HeldIs(s, t);
    GrantsAreFresh(s, t);
  }

  /** Byte `c` leaves the callers' hands at step `k` only by being returned. */
  ghost predicate KeptAt(states: seq<Sys>, steps: seq<Step>, k: nat, c: Cell)
    requires k < |steps| && k + 1 < |states|
  {
    c in states[k].held ==> c in states[k + 1].held || c in Returned(steps[k])
  }

  lemma KeptAlways(states: seq<Sys>, steps: seq<Step>, c: Cell)
    requires IsRun(states, steps) && Good(states[0])
    ensures forall k: nat :: k < |steps| ==> KeptAt(states, steps, k, c)
  {
    forall k: nat | k < |steps| ensures KeptAt(states, steps, k, c) {
      RunKeeps(states, steps, k);
      ByteMoves(states[k], steps[k], c);
    }
  }

  lemma {:induction false} StaysHeld(states: seq<Sys>, steps: seq<Step>, i: nat, j: nat, c: Cell)
    requires i <= j < |states| == |steps| + 1 && c in states[i].held
    requires forall k: nat :: k < |steps| ==> KeptAt(states, steps, k, c)
    ensures c in states[j].held || ReturnedBetween(steps, i, j, c)
  {
    if i < j {
      StaysHeld(states, steps, i, j - 1, c);
      assert KeptAt(states, steps, j - 1, c);
    }
  }

  /** No byte has two holders: between two grants of one byte it was given back. */
  lemma NeverHandedOutTwice(states: seq<Sys>, steps: seq<Step>, i: nat, j: nat, c: Cell)
    requires IsRun(states, steps) && Good(states[0]) && i < j < |steps|
    requires c in Granted(states[i], steps[i]) && c in Granted(states[j], steps[j])
    ensures ReturnedBetween(steps, i + 1, j, c)
  {
    RunKeeps(states, steps, i);
    ByteMoves(states[i], steps[i], c);
    KeptAlways(states, steps, c);
    StaysHeld(states, steps, i + 1, j, c);
    RunKeeps(states, steps, j);
    ByteMoves(states[j], steps[j], c);
  }

  // ----- accounting ----------------------------------------------------------------------------

  lemma StepKeepsCount(s: Sys, t: Step, vol: int)
    requires Enabled(s, t) && (t.FinishCarve? ==> CallOk(s.chips, s.calls[t.pid])) && vol in s.vols
    ensures vol in Apply(s, t).vols && Apply(s, t).vols[vol].blkCount == s.vols[vol].blkCount
  {
  }

  /** From the step that registers a volume on, its position and reserve add up to the registered size. */
  lemma Accounting(states: seq<Sys>, steps: seq<Step>, k: nat, i: nat, vol: int, blkCount: int)
    requires IsRun(states, steps) && Good(states[0]) && k < i < |states|
    requires steps[k] == Register(vol, blkCount) && vol !in states[k].vols
    ensures vol in states[i].vols
    ensures var v := states[i].vols[vol];
            && v.curPosition + v.reserved == blkCount * BLK_SIZE
            && 0 <= v.curPosition && 0 <= v.reserved && Aligned(v.curPosition)
  {
    SameCount(states, steps, k + 1, i, vol);
    RunKeeps(states, steps, i);
  }

  lemma {:induction false} SameCount(states: seq<Sys>, steps: seq<Step>, k: nat, i: nat, vol: int)
    requires IsRun(states, steps) && Good(states[0]) && k <= i < |states| && vol in states[k].vols
    ensures vol in states[i].vols && states[i].vols[vol].blkCount == states[k].vols[vol].blkCount
  {
    if k < i {
      SameCount(states, steps, k, i - 1, vol);
      CountAt(states, steps, i - 1, vol);
    }
  }

  lemma CountAt(states: seq<Sys>, steps: seq<Step>, k: nat, vol: int)
    requires IsRun(states, steps) && Good(states[0]) && k < |steps| && vol in states[k].vols
    ensures vol in states[k + 1].vols && states[k + 1].vols[vol].blkCount == states[k].vols[vol].blkCount
  {
    RunKeeps(states, steps, k);
    StepKeepsCount(states[k], steps[k], vol);
  }

  ghost predicate FreeIn(s: Sys, id: nat, c: Cell) { id in s.chips && In(c, Range(BlksOf(s.chips[id]))) }

  /** With no call in flight nothing is lost: each byte below its volume's position is held by a
      caller or lies in exactly one chip, and nothing else is; every chip's size is its span. */
  lemma NothingLost(s: Sys, c: Cell)
    requires Good(s) && s.calls == map[]
    ensures Below(c, Cur(s.vols)) <==> c in s.held || exists id :: FreeIn(s, id, c)
    ensures forall id :: FreeIn(s, id, c) ==> c !in s.held
    ensures forall i, j :: FreeIn(s, i, c) && FreeIn(s, j, c) ==> i == j
    ensures forall id :: id in s.chips ==>
              !s.chips[id].lock && s.chips[id].size == Hi(BlksOf(s.chips[id])) - Lo(BlksOf(s.chips[id]))
  {
    forall id | id in s.chips ensures !s.chips[id].lock {
      assert s.chips[id].lock ==> HasCarver(s.calls, id);
    }
    ClaimedIsFree(s, c);
  }

  lemma ClaimedIsFree(s: Sys, c: Cell)
    requires s.calls == map[] && forall id :: id in s.chips ==> !s.chips[id].lock
    ensures Claimed(c, Claims(s.chips, s.calls)) <==> exists id :: FreeIn(s, id, c)
    ensures forall id :: FreeIn(s, id, c) ==>
              OfChip(id) in Claims(s.chips, s.calls) && In(c, Claims(s.chips, s.calls)[OfChip(id)])
  {
    var claims := Claims(s.chips, s.calls);
    forall id | FreeIn(s, id, c) ensures In(c, claims[OfChip(id)]) { }
    if Claimed(c, claims) {
      var k :| k in claims && In(c, claims[k]);
      assert k.OfChip? && FreeIn(s, k.id, c);
    }
  }
}
