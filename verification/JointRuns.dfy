/**
 The object layer and the allocator together: any number of calls of both interleaved. What each
 layer takes for granted of the other is proved: the storage an object gets is nobody's, and what
 is given back is held by the one who gives it.
 */
module JointRuns {
  import opened Layout
  import opened Ownership
  import opened ObjectSpec
  import opened ObjectProof
  import opened ObjectRuns
  import opened Extents
  import R = RegmSpec
  import RP = RegmProof
  import RR = RegmRuns

  datatype Joint = Joint(s: Sys, ghost r: R.Sys)

  /** A step of one layer alone, or one in which they meet: the allocator's reply to the
      `CreateObject` that asked, or the call by which an object's storage is given back. */
  datatype Move =
    | Inside(t: Step)
    | Allocator(u: R.Step)
    | Grant(pid: nat, u: R.Step)
    | GiveBack(t: Step, pid: nat)

  // ----- where the layers meet -----------------------------------------------------------------------

  /** The step gives storage back. */
  predicate Returns(s: Sys, t: Step) {
    || t.AbortFree? || t.FreeOwn? || t.Discard?
    || (t.Resize? && Reachable(s, t.oid) && DataAlign(t.newSize) < View(s, t.oid).size)
  }

  /** What `add_blk_chip` is called with. */
  function Given(s: Sys, t: Step): R.Blks
    requires Enabled(s, t) && Returns(s, t)
  {
    if t.AbortFree? then WholeBlks(s.calls[t.pid].stage.place, s.calls[t.pid].size)
    else if t.FreeOwn? then WholeBlks(s.busy[t.oid].entry.place, s.busy[t.oid].entry.size)
    else if t.Resize? then RestBlks(View(s, t.oid).place, t.newSize, View(s, t.oid).size)
    else WholeBlks(View(s, t.oid).place, View(s, t.oid).size)
  }

  /** A `CreateObject` of `size` bytes is waiting for storage. */
  predicate Asks(s: Sys, pid: nat, size: int) {
    pid in s.calls && s.calls[pid].Creating? && s.calls[pid].stage.Reserved? && s.calls[pid].size == size
  }

  ghost predicate Carves(r: R.Sys, pid: nat) { pid in r.calls && r.calls[pid].Carving? }

  ghost predicate Grants(r: R.Sys, u: R.Step) { R.Enabled(r, u) && (u.FinishCarve? || u.BumpVolume?) }

  /** The range granted. */
  ghost function GrantedBlks(r: R.Sys, u: R.Step): R.Blks
    requires Grants(r, u)
  {
    if u.FinishCarve? then r.calls[u.pid].blks else R.Fresh(u.vol, r.vols[u.vol].curPosition, u.size)
  }

  /** What can happen next, as far as the layer knows that does it. */
  ghost predicate CanMove(j: Joint, m: Move) {
    match m
    case Inside(t) =>
      && Enabled(j.s, t) && Polite(j.s, t) && !t.Allot? && !Returns(j.s, t)
      && (t.Refuse? || t.Withdraw? ==> !Carves(j.r, t.pid))
    case Allocator(u) =>
      && R.Enabled(j.r, u) && !Grants(j.r, u) && !u.BeginAdd? && (u.LockChip? ==> Asks(j.s, u.pid, u.size))
    case Grant(pid, u) =>
      && Grants(j.r, u)
      && (if u.FinishCarve? then u.pid == pid else Asks(j.s, pid, u.size) && !Carves(j.r, pid))
    case GiveBack(t, pid) => Enabled(j.s, t) && Polite(j.s, t) && Returns(j.s, t) && pid !in j.r.calls
  }

  /** The other layer can do its part. */
  ghost predicate Meets(j: Joint, m: Move)
    requires CanMove(j, m)
  {
    match m
    case Grant(pid, u) => Enabled(j.s, Allot(pid, PlaceIn(GrantedBlks(j.r, u))))
    case GiveBack(t, pid) => R.Enabled(j.r, R.BeginAdd(pid, Given(j.s, t)))
    case _ => true
  }

  ghost function Next(j: Joint, m: Move): Joint
    requires CanMove(j, m) && Meets(j, m)
  {
    match m
    case Inside(t) => j.(s := Apply(j.s, t))
    case Allocator(u) => j.(r := R.Apply(j.r, u))
    case Grant(pid, u) => Joint(Apply(j.s, Allot(pid, PlaceIn(GrantedBlks(j.r, u)))), R.Apply(j.r, u))
    case GiveBack(t, pid) => Joint(Apply(j.s, t), R.Apply(j.r, R.BeginAdd(pid, Given(j.s, t))))
  }

  // ----- the joint invariant -------------------------------------------------------------------------

  /** A chip is carved for a `CreateObject` that waits for just that much. */
  ghost predicate CarveAsked(j: Joint, pid: nat) {
    Carves(j.r, pid) ==>
      && pid in j.s.calls && j.s.calls[pid].Creating?
      && Asks(j.s, pid, j.s.calls[pid].size)
      && R.Hi(j.r.calls[pid].blks) == R.Lo(j.r.calls[pid].blks) + DataAlign(j.s.calls[pid].size)
  }

  ghost predicate Agreed(j: Joint) { j.r.held == j.s.held && forall pid: nat :: CarveAsked(j, pid) }

  /** Both layers are in order, and agree on what is handed out. */
  ghost predicate Good(j: Joint) { Inv(j.s) && RR.Good(j.r) && Agreed(j) }

  lemma EmptyIsGood(digest: seq<Byte> -> string, bytes: Cell -> Byte, nodes: map<Place, S.HashNode>)
    ensures Good(Joint(Nothing(digest, bytes, nodes), R.Sys(map[], map[], map[], iset{})))
  {
    ObjectRuns.EmptyIsGood(digest, bytes, nodes);
    RR.EmptyIsGood();
  }

  // ----- the allocator keeps its side ------------------------------------------------------------------

  /** The range granted is just what was asked for: the assertion `CreateObject` makes of it holds. */
  lemma GrantIsAsked(j: Joint, pid: nat, u: R.Step)
    requires Good(j) && CanMove(j, Grant(pid, u))
    ensures pid in j.s.calls && j.s.calls[pid].Creating? && Asks(j.s, pid, j.s.calls[pid].size)
    ensures var b := GrantedBlks(j.r, u);
            R.BlksOk(b) && R.Hi(b) == R.Lo(b) + DataAlign(j.s.calls[pid].size)
  {
    assert CarveAsked(j, pid) && CallOk(j.s, pid);
    if u.FinishCarve? {
      assert R.CallOk(j.r.chips, j.r.calls[pid]);
    } else {
      FreshIsAsked(j.r, u.vol, u.size);
    }
  }

  lemma FreshIsAsked(r: R.Sys, vol: int, size: int)
    requires R.Inv(r) && R.Enabled(r, R.BumpVolume(vol, size))
    ensures var b := R.Fresh(vol, r.vols[vol].curPosition, size); R.BlksOk(b) && R.Hi(b) == R.Lo(b) + DataAlign(size)
  {
    assert R.VolumeOk(r.vols[vol]);
    RP.FreshRange(vol, r.vols[vol].curPosition, size);
  }

  /** ... and nobody has it. */
  lemma GrantMeets(j: Joint, pid: nat, u: R.Step)
    requires Good(j) && CanMove(j, Grant(pid, u))
    ensures Meets(j, Grant(pid, u))
    ensures R.Range(GrantedBlks(j.r, u)) == ExtentOf(PlaceIn(GrantedBlks(j.r, u)), j.s.calls[pid].size)
  {
    GrantIsAsked(j, pid, u);
    assert CallOk(j.s, pid);
    GrantedExtent(GrantedBlks(j.r, u), j.s.calls[pid].size);
    RR.GrantsAreFresh(j.r, u);
  }

  // ----- the object layer keeps its side ---------------------------------------------------------------

  lemma OwnedHeld(s: Sys, k: Owner)
    requires Owned(s) && IsOwner(s, k)
    ensures Cells(OwnedBy(s, k)) <= s.held
  {
    forall c | c in Cells(OwnedBy(s, k)) ensures c in s.held { assert In(c, Claims(s)[k]); }
  }

  /** The extent that goes back, and whose it was. */
  ghost function Freed(s: Sys, t: Step): Extent
    requires Enabled(s, t) && Returns(s, t)
  {
    if t.AbortFree? then ExtentOf(s.calls[t.pid].stage.place, s.calls[t.pid].size)
    else if t.FreeOwn? then ExtentOf(s.busy[t.oid].entry.place, s.busy[t.oid].entry.size)
    else if t.Resize? then Rest(View(s, t.oid).place, t.newSize, View(s, t.oid).size)
    else ExtentOf(View(s, t.oid).place, View(s, t.oid).size)
  }

  lemma CallGives(s: Sys, pid: nat)
    requires Inv(s) && Enabled(s, AbortFree(pid))
    ensures R.BlksOk(Given(s, AbortFree(pid))) && R.Range(Given(s, AbortFree(pid))) == Freed(s, AbortFree(pid))
    ensures Cells(Freed(s, AbortFree(pid))) <= s.held
  {
    assert CallOk(s, pid);
    WholeExtent(s.calls[pid].stage.place, s.calls[pid].size);
    OwnedHeld(s, OfCall(pid));
  }

  lemma CompletedGives(s: Sys, oid: Oid)
    requires Inv(s) && Enabled(s, FreeOwn(oid))
    ensures R.BlksOk(Given(s, FreeOwn(oid))) && R.Range(Given(s, FreeOwn(oid))) == Freed(s, FreeOwn(oid))
    ensures Cells(Freed(s, FreeOwn(oid))) <= s.held
  {
    assert OidOk(s, oid) && PhaseOk(s, oid);
    WholeExtent(s.busy[oid].entry.place, s.busy[oid].entry.size);
    OwnedHeld(s, OfObject(oid));
  }

  lemma OpenGives(s: Sys, t: Step)
    requires Inv(s) && Enabled(s, t) && Polite(s, t) && Returns(s, t) && (t.Discard? || t.Resize?)
    ensures R.BlksOk(Given(s, t)) && R.Range(Given(s, t)) == Freed(s, t)
    ensures Cells(Freed(s, t)) <= s.held
  {
    HandlerView(s, t.oid);
    var c := View(s, t.oid);
    AlignUp(c.size);
    OwnedHeld(s, OfObject(t.oid));
    if t.Discard? {
      WholeExtent(c.place, c.size);
    } else {
      AlignUp(t.newSize);
      RestExtent(c.place, t.newSize, c.size);
      assert Cells(Freed(s, t)) <= Cells(OwnedBy(s, OfObject(t.oid)));
    }
  }

  /** What an object gives back is a proper range, and its own. */
  lemma GiveBackMeets(j: Joint, t: Step, pid: nat)
    requires Good(j) && CanMove(j, GiveBack(t, pid))
    ensures Meets(j, GiveBack(t, pid)) && R.Range(Given(j.s, t)) == Freed(j.s, t)
  {
    if t.AbortFree? { CallGives(j.s, t.pid); }
    else if t.FreeOwn? { CompletedGives(j.s, t.oid); }
    else { OpenGives(j.s, t); }
  }

  // ----- every move keeps both -------------------------------------------------------------------------

  lemma InsideHeld(s: Sys, t: Step)
    requires Enabled(s, t) && !t.Allot? && !Returns(s, t)
    ensures Apply(s, t).held == s.held
  {
  }

  lemma FreedHeld(s: Sys, t: Step)
    requires Enabled(s, t) && Returns(s, t)
    ensures Apply(s, t).held == s.held - Cells(Freed(s, t))
  {
  }

  /** A waiting `CreateObject` goes on waiting until it gets its reply. */
  lemma StillAsks(s: Sys, t: Step, pid: nat, size: int)
    requires Enabled(s, t) && Asks(s, pid, size)
    requires !((t.Allot? || t.Refuse? || t.Withdraw?) && t.pid == pid)
    ensures Asks(Apply(s, t), pid, size)
  {
    if !(IsCallStep(t) && t.pid == pid) { CallsLocal(s, t, pid); }
  }

  lemma InsideKeeps(j: Joint, t: Step)
    requires Good(j) && CanMove(j, Inside(t))
    ensures Good(Next(j, Inside(t)))
  {
    StepKeeps(j.s, t);
    InsideHeld(j.s, t);
    var k := Next(j, Inside(t));
    forall pid: nat ensures CarveAsked(k, pid) {
      assert CarveAsked(j, pid);
      if Carves(j.r, pid) { StillAsks(j.s, t, pid, j.s.calls[pid].size); }
    }
  }

  /** Another call's carving is left alone; a new one takes what was asked for. */
  lemma CarvesBefore(r: R.Sys, u: R.Step, pid: nat)
    requires RR.Good(r) && R.Enabled(r, u) && Carves(R.Apply(r, u), pid)
    ensures (Carves(r, pid) && R.Apply(r, u).calls[pid] == r.calls[pid] && !(u.FinishCarve? && u.pid == pid))
            || (u.LockChip? && u.pid == pid)
  {
  }

  lemma LockTakes(r: R.Sys, pid: nat, id: nat, size: int)
    requires R.Inv(r) && R.Enabled(r, R.LockChip(pid, id, size))
    ensures var b := R.Apply(r, R.LockChip(pid, id, size)).calls[pid].blks; R.Hi(b) == R.Lo(b) + DataAlign(size)
  {
    assert R.ChipOk(r.chips[id]);
    RP.TailRange(r.chips[id], size);
  }

  lemma RegmKeeps(r: R.Sys, u: R.Step)
    requires RR.Good(r) && R.Enabled(r, u)
    ensures RR.Good(R.Apply(r, u))
    ensures R.Apply(r, u).held == r.held - RR.Returned(u) + RR.Granted(r, u)
  {
    RP.StepKeeps(r, u);
    RR.TendedKeeps(r, u);
    assert u.FinishCarve? ==> R.CallOk(r.chips, r.calls[u.pid]);
    RR.HeldIs(r, u);
  }

  lemma AllocatorKeeps(j: Joint, u: R.Step)
    requires Good(j) && CanMove(j, Allocator(u))
    ensures Good(Next(j, Allocator(u)))
  {
    RegmKeeps(j.r, u);
    var k := Next(j, Allocator(u));
    forall pid: nat ensures CarveAsked(k, pid) {
      assert CarveAsked(j, pid);
      if Carves(k.r, pid) {
        CarvesBefore(j.r, u, pid);
        if u.LockChip? && u.pid == pid { LockTakes(j.r, pid, u.id, u.size); }
      }
    }
  }

  lemma GrantKeeps(j: Joint, pid: nat, u: R.Step)
    requires Good(j) && CanMove(j, Grant(pid, u)) && Meets(j, Grant(pid, u))
    requires R.Range(GrantedBlks(j.r, u)) == ExtentOf(PlaceIn(GrantedBlks(j.r, u)), j.s.calls[pid].size)
    ensures Good(Next(j, Grant(pid, u)))
  {
    var t := Allot(pid, PlaceIn(GrantedBlks(j.r, u)));
    RegmKeeps(j.r, u);
    StepKeeps(j.s, t);
    var k := Next(j, Grant(pid, u));
    forall q: nat ensures CarveAsked(k, q) {
      assert CarveAsked(j, q);
      if Carves(k.r, q) {
        CarvesBefore(j.r, u, q);
        StillAsks(j.s, t, q, j.s.calls[q].size);
      }
    }
  }

  lemma GiveBackKeeps(j: Joint, t: Step, pid: nat)
    requires Good(j) && CanMove(j, GiveBack(t, pid)) && Meets(j, GiveBack(t, pid))
    requires R.Range(Given(j.s, t)) == Freed(j.s, t)
    ensures Good(Next(j, GiveBack(t, pid)))
  {
    var u := R.BeginAdd(pid, Given(j.s, t));
    RegmKeeps(j.r, u);
    StepKeeps(j.s, t);
    FreedHeld(j.s, t);
    var k := Next(j, GiveBack(t, pid));
    forall q: nat ensures CarveAsked(k, q) {
      assert CarveAsked(j, q);
      if Carves(k.r, q) {
        CarvesBefore(j.r, u, q);
        StillAsks(j.s, t, q, j.s.calls[q].size);
      }
    }
  }

  /** Whatever one layer can do, the other can do its part of, and both stay in order. */
  lemma MoveKeeps(j: Joint, m: Move)
    requires Good(j) && CanMove(j, m)
    ensures Meets(j, m) && Good(Next(j, m))
  {
    match m
    case Inside(t) => InsideKeeps(j, t);
    case Allocator(u) => AllocatorKeeps(j, u);
    case Grant(pid, u) => GrantMeets(j, pid, u); GrantKeeps(j, pid, u);
    case GiveBack(t, pid) => GiveBackMeets(j, t, pid); GiveBackKeeps(j, t, pid);
  }

  // ----- whole runs ----------------------------------------------------------------------------------

  /** Each layer takes its own steps; nothing is required of the other. */
  ghost predicate IsJointRun(states: seq<Joint>, moves: seq<Move>) {
    && |states| == |moves| + 1
    && forall i :: 0 <= i < |moves| ==>
         CanMove(states[i], moves[i]) && (Meets(states[i], moves[i]) ==> states[i + 1] == Next(states[i], moves[i]))
  }

  lemma {:induction false} JointKeeps(states: seq<Joint>, moves: seq<Move>, i: nat)
    requires IsJointRun(states, moves) && Good(states[0]) && i < |states|
    ensures Good(states[i])
  {
    if i > 0 {
      JointKeeps(states, moves, i - 1);
      MoveKeeps(states[i - 1], moves[i - 1]);
    }
  }

  /** Move `k` is one both layers take part in. */
  ghost predicate MovesAt(states: seq<Joint>, moves: seq<Move>, k: nat)
    requires k < |moves| && k + 1 < |states|
  {
    && Good(states[k]) && CanMove(states[k], moves[k])
    && Meets(states[k], moves[k]) && states[k + 1] == Next(states[k], moves[k])
  }

  lemma MovesAlways(states: seq<Joint>, moves: seq<Move>)
    requires IsJointRun(states, moves) && Good(states[0])
    ensures forall k: nat :: k < |moves| ==> MovesAt(states, moves, k)
  {
    forall k: nat | k < |moves| ensures MovesAt(states, moves, k) {
      JointKeeps(states, moves, k);
      MoveKeeps(states[k], moves[k]);
    }
  }

  /** The object layer's part of a move, if it has one. */
  ghost function Part(j: Joint, m: Move): seq<Step> {
    match m
    case Inside(t) => [t]
    case Allocator(_) => []
    case Grant(pid, u) => if Grants(j.r, u) then [Allot(pid, PlaceIn(GrantedBlks(j.r, u)))] else []
    case GiveBack(t, _) => [t]
  }

  ghost predicate IsRunFrom(s: Sys, states: seq<Sys>, steps: seq<Step>, t: Sys) {
    IsRun(states, steps) && states[0] == s && states[|steps|] == t
  }

  lemma RunExtends(s: Sys, states: seq<Sys>, steps: seq<Step>, t: Sys, step: Step)
    requires IsRunFrom(s, states, steps, t) && Enabled(t, step) && Polite(t, step)
    ensures IsRunFrom(s, states + [Apply(t, step)], steps + [step], Apply(t, step))
  {
    var more, all := states + [Apply(t, step)], steps + [step];
    forall i | 0 <= i < |all|
      ensures Enabled(more[i], all[i]) && Polite(more[i], all[i]) && more[i + 1] == Apply(more[i], all[i])
    {
      if i < |steps| { assert more[i] == states[i] && more[i + 1] == states[i + 1] && all[i] == steps[i]; }
    }
  }

  /** ... and of the moves from `i` up to `j`. */
  ghost function Parts(states: seq<Joint>, moves: seq<Move>, i: nat, j: nat): seq<Step>
    requires j <= |moves| < |states|
    decreases j
  {
    if j <= i then [] else Parts(states, moves, i, j - 1) + Part(states[j - 1], moves[j - 1])
  }

  lemma PartStep(j: Joint, m: Move)
    requires Good(j) && CanMove(j, m) && Meets(j, m)
    ensures if m.Allocator? then Part(j, m) == [] && Next(j, m).s == j.s
            else |Part(j, m)| == 1 && Enabled(j.s, Part(j, m)[0]) && Polite(j.s, Part(j, m)[0])
                 && Next(j, m).s == Apply(j.s, Part(j, m)[0])
  {
  }

  lemma {:induction false} PartsRun(states: seq<Joint>, moves: seq<Move>, i: nat, j: nat)
    returns (os: seq<Sys>, ot: seq<Step>)
    requires i <= j < |states| == |moves| + 1 && forall k: nat :: k < |moves| ==> MovesAt(states, moves, k)
    ensures IsRunFrom(states[i].s, os, ot, states[j].s) && ot == Parts(states, moves, i, j)
  {
    if i == j {
      os, ot := [states[i].s], [];
    } else {
      var before, parts := PartsRun(states, moves, i, j - 1);
      assert MovesAt(states, moves, j - 1);
      os := PartExtends(states[i].s, before, parts, states[j - 1], moves[j - 1]);
      ot := parts + Part(states[j - 1], moves[j - 1]);
    }
  }

  /** The object layer's part of a run of both is a run of the object layer. */
  lemma ObjectPart(states: seq<Joint>, moves: seq<Move>, i: nat, j: nat) returns (os: seq<Sys>, ot: seq<Step>)
    requires IsJointRun(states, moves) && Good(states[0]) && i <= j < |states|
    ensures IsRunFrom(states[i].s, os, ot, states[j].s) && ot == Parts(states, moves, i, j)
  {
    MovesAlways(states, moves);
    os, ot := PartsRun(states, moves, i, j);
  }

  lemma PartExtends(from: Sys, os: seq<Sys>, ot: seq<Step>, j: Joint, m: Move) returns (more: seq<Sys>)
    requires IsRunFrom(from, os, ot, j.s) && Good(j) && CanMove(j, m) && Meets(j, m)
    ensures IsRunFrom(from, more, ot + Part(j, m), Next(j, m).s)
  {
    PartStep(j, m);
    if m.Allocator? {
      more := os;
      assert ot + Part(j, m) == ot;
    } else {
      var t := Part(j, m)[0];
      RunExtends(from, os, ot, j.s, t);
      more := os + [Apply(j.s, t)];
      assert Part(j, m) == [t];
    }
  }

  ghost predicate NotUnlink(j: Joint, m: Move, oid: Oid) { Unlink(oid) !in Part(j, m) }

  lemma {:induction false} NotUnlinked(states: seq<Joint>, moves: seq<Move>, i: nat, j: nat, oid: Oid)
    requires j <= |moves| < |states| && forall k :: i <= k < j ==> NotUnlink(states[k], moves[k], oid)
    ensures Unlink(oid) !in Parts(states, moves, i, j)
    decreases j
  {
    if i < j { NotUnlinked(states, moves, i, j - 1, oid); }
  }

  /** However calls of both layers interleave, every read of a finished object gives the same reply
      until the object is deleted. */
  lemma JointReadsStay(states: seq<Joint>, moves: seq<Move>, i: nat, j: nat, oid: Oid, size: int, offset: int)
    requires IsJointRun(states, moves) && Good(states[0]) && i <= j < |states| && Finished(states[i].s, oid)
    requires forall k :: i <= k < j ==> moves[k] != Inside(Unlink(oid))
    ensures Read(states[j].s, oid, size, offset) == Read(states[i].s, oid, size, offset)
  {
    var os, ot := ObjectPart(states, moves, i, j);
    JointKeeps(states, moves, i);
    forall k | i <= k < j ensures NotUnlink(states[k], moves[k], oid) { }
    NotUnlinked(states, moves, i, j, oid);
    forall k | 0 <= k < |ot| ensures ot[k] != Unlink(oid) { assert ot[k] in ot; }
    CompletedReadsStay(os, ot, 0, |ot|, oid, size, offset);
  }
}
