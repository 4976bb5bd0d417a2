/**
 What a client can know of the node's hash of its object: a ledger of the client's own calls. A
 client that goes by it keeps every promise about contents.
 */
module ObjectLedger {
  import opened Layout
  import opened Ownership
  import opened HexCodec
  import opened ObjectSpec
  import opened ObjectProof
  import opened ObjectRuns
  import opened ObjectNodes
  import opened ObjectContents
  import S = StorageSpec

  /** Of an object under construction: its size, the bytes written in order from its start on, and
      whether it has been written to or resized. */
  datatype Ledger = Ledger(size: int, hashed: int, written: bool, resized: bool)

  function NewLedger(size: int): Ledger { Ledger(size, 0, false, false) }

  function Noted(l: Ledger, t: Step): Ledger {
    if t.Write? && 0 <= t.offset < l.size then
      var n := |Clipped(l.size, t.offset, t.data)|;
      l.(written := true, hashed := if t.offset == l.hashed then l.hashed + n else l.hashed)
    else if t.Resize? then l.(size := t.newSize, resized := true)
    else l
  }

  /** What a client that goes by its ledger does: no write below the bytes written in order, no
      resize into them, no deletion of an incomplete object it has written to; and it completes an
      object it has resized only if none were written in order, any other only if they are all of
      the object, or not one short of a multiple of 16. */
  predicate Heeds(l: Ledger, t: Step) {
    match t
    case Write(_, offset, _) => l.hashed <= offset
    case Resize(_, newSize) => l.hashed <= newSize
    case Mark(_) =>
      if l.resized then l.hashed == 0 else l.hashed == l.size || (l.hashed < l.size && l.hashed % ALIGN != 15)
    case Discard(_) => !l.written
    case _ => true
  }

  /** The ledger tells what the node has hashed. */
  ghost predicate Tracks(s: Sys, oid: Oid, l: Ledger) {
    && oid in s.objects && s.objects[oid].size == l.size && NodeAt(s.nodes, s.objects[oid].place).hashed == l.hashed
    && (s.objects[oid].place in s.nodes <==> l.written)
    && (oid in s.cache && oid !in s.busy && oid !in s.stale && s.cache[oid].flags == 1 ==> l.resized)
  }

  // ----- the ledger stays right ----------------------------------------------------------------------

  /** A node an object has not written to has hashed nothing. */
  lemma FillTracks(s: Sys, pid: nat)
    requires Inv(s) && Unlittered(s) && Enabled(s, Fill(pid))
    ensures Tracks(Apply(s, Fill(pid)), s.calls[pid].oid, NewLedger(s.calls[pid].size))
  {
    CallPlaceClean(s, pid);
    assert CallOk(s, pid) && OidOk(s, s.calls[pid].oid);
  }

  lemma WriteTracks(s: Sys, oid: Oid, offset: int, data: seq<Byte>, l: Ledger)
    requires TablesOk(s) && Enabled(s, Write(oid, offset, data)) && Usable(s, oid) && Tracks(s, oid, l)
    ensures Tracks(Apply(s, Write(oid, offset, data)), oid, Noted(l, Write(oid, offset, data)))
  {
    HandlerView(s, oid);
    AddressIs(View(s, oid).place, offset);
    WriteIs(s, oid, offset, data);
    WriteEntry(s, oid, offset, data);
  }

  lemma WriteEntry(s: Sys, oid: Oid, offset: int, data: seq<Byte>)
    requires Enabled(s, Write(oid, offset, data))
    ensures var u, c := Apply(s, Write(oid, offset, data)), View(s, oid);
            && u.cache == s.cache[oid := EntryWritten(c, offset, data)] && u.stale == s.stale
            && u.nodes == NodesAfter(s.nodes, c.place, offset, Clipped(c.size, offset, data))
  {
  }

  lemma ResizeTracks(s: Sys, oid: Oid, newSize: int, l: Ledger)
    requires TablesOk(s) && Enabled(s, Resize(oid, newSize)) && Usable(s, oid) && Tracks(s, oid, l)
    ensures Tracks(Apply(s, Resize(oid, newSize)), oid, Noted(l, Resize(oid, newSize)))
  {
    HandlerView(s, oid);
  }

  /** What else is done to an object that stays open leaves its ledger alone. */
  lemma TargetTracks(s: Sys, t: Step, l: Ledger)
    requires TablesOk(s) && Enabled(s, t) && Polite(s, t) && !t.Write? && !t.Resize? && !t.Fill?
    requires IsOpen(s, Target(s, t)) ==> Tracks(s, Target(s, t), l)
    ensures IsOpen(Apply(s, t), Target(s, t)) ==> Tracks(Apply(s, t), Target(s, t), l)
  {
    TargetStays(s, t);
    assert OidOk(s, Target(s, t));
    if IsCallStep(t) { CallTracks(s, t, l); } else { HandlerTracks(s, t, l); }
  }

  lemma CallTracks(s: Sys, t: Step, l: Ledger)
    requires TablesOk(s) && Enabled(s, t) && IsCallStep(t) && !t.Fill? && OidOk(s, Target(s, t))
    requires IsOpen(s, Target(s, t)) ==> Tracks(s, Target(s, t), l)
    ensures IsOpen(Apply(s, t), Target(s, t)) ==> Tracks(Apply(s, t), Target(s, t), l)
  {
    CallStays(s, t);
    CallLocks(s, t);
  }

  lemma HandlerTracks(s: Sys, t: Step, l: Ledger)
    requires Enabled(s, t) && Polite(s, t) && !IsCallStep(t) && !t.Write? && !t.Resize? && OidOk(s, Target(s, t))
    requires IsOpen(s, Target(s, t)) ==> Tracks(s, Target(s, t), l)
    ensures IsOpen(Apply(s, t), Target(s, t)) ==> Tracks(Apply(s, t), Target(s, t), l)
  {
    HandlerStays(s, t);
  }

  lemma OthersTrack(s: Sys, t: Step, oid: Oid, l: Ledger)
    requires Inv(s) && Enabled(s, t) && Polite(s, t) && oid != Target(s, t)
    requires IsOpen(s, oid) ==> Tracks(s, oid, l)
    ensures IsOpen(Apply(s, t), oid) ==> Tracks(Apply(s, t), oid, l)
  {
    StepLocal(s, t, oid);
    if IsOpen(s, oid) {
      if t.Write? || t.Mark? { HandlerView(s, t.oid); PlacesApart(s, OfObject(t.oid), OfObject(oid)); }
      NodeLocal(s, t, s.objects[oid].place);
    }
  }

  // ----- the ledgers of all objects --------------------------------------------------------------------

  /** The ledgers after a step: one is opened when an object gets its document. */
  function Entered(b: map<Oid, Ledger>, s: Sys, t: Step): map<Oid, Ledger> {
    if t.Fill? && t.pid in s.calls && s.calls[t.pid].Creating? then
      b[s.calls[t.pid].oid := NewLedger(s.calls[t.pid].size)]
    else if (t.Write? || t.Resize?) && t.oid in b then b[t.oid := Noted(b[t.oid], t)]
    else b
  }

  /** Every object under construction has its ledger. */
  ghost predicate BookOk(s: Sys, b: map<Oid, Ledger>) { forall oid: Oid :: InBook(s, b, oid) }

  ghost predicate InBook(s: Sys, b: map<Oid, Ledger>, oid: Oid) {
    IsOpen(s, oid) ==> oid in b && Tracks(s, oid, b[oid])
  }

  lemma BookKeeps(s: Sys, t: Step, b: map<Oid, Ledger>)
    requires Inv(s) && Unlittered(s) && BookOk(s, b) && Enabled(s, t) && Polite(s, t)
    ensures BookOk(Apply(s, t), Entered(b, s, t))
  {
    forall oid: Oid ensures InBook(Apply(s, t), Entered(b, s, t), oid) {
      assert InBook(s, b, oid);
      if oid != Target(s, t) { OtherInBook(s, t, b, oid); } else { TargetInBook(s, t, b); }
    }
  }

  lemma OtherInBook(s: Sys, t: Step, b: map<Oid, Ledger>, oid: Oid)
    requires Inv(s) && InBook(s, b, oid) && Enabled(s, t) && Polite(s, t) && oid != Target(s, t)
    ensures InBook(Apply(s, t), Entered(b, s, t), oid)
  {
    StepLocal(s, t, oid);
    if IsOpen(s, oid) { OthersTrack(s, t, oid, b[oid]); }
  }

  lemma TargetInBook(s: Sys, t: Step, b: map<Oid, Ledger>)
    requires Inv(s) && Unlittered(s) && InBook(s, b, Target(s, t)) && Enabled(s, t) && Polite(s, t)
    ensures InBook(Apply(s, t), Entered(b, s, t), Target(s, t))
  {
    var oid := Target(s, t);
    if t.Fill? { FillTracks(s, t.pid); }
    else if t.Write? { HandlerView(s, oid); WriteTracks(s, oid, t.offset, t.data, b[oid]); }
    else if t.Resize? { HandlerView(s, oid); ResizeTracks(s, oid, t.newSize, b[oid]); }
    else {
      TargetStays(s, t);
      TargetTracks(s, t, if oid in b then b[oid] else NewLedger(0));
    }
  }

  /** The client heeds its ledger. */
  predicate Heeded(b: map<Oid, Ledger>, t: Step) {
    (t.Write? || t.Resize? || t.Mark? || t.Discard?) && t.oid in b ==> Heeds(b[t.oid], t)
  }

  /** ... and that keeps the promise about the node, which the client does not see. */
  lemma HeededIsTidy(s: Sys, t: Step, b: map<Oid, Ledger>)
    requires Inv(s) && BookOk(s, b) && Enabled(s, t) && Polite(s, t) && Heeded(b, t)
    ensures Tidy(s, t)
  {
    if t.Write? || t.Resize? || t.Mark? || t.Discard? {
      HandlerView(s, t.oid);
      assert InBook(s, b, t.oid);
      if t.Mark? { MarkHeeded(s, t.oid, b[t.oid]); }
    }
  }

  lemma MarkHeeded(s: Sys, oid: Oid, l: Ledger)
    requires TablesOk(s) && Enabled(s, Mark(oid)) && Usable(s, oid) && Tracks(s, oid, l) && Heeds(l, Mark(oid))
    requires Agrees(View(s, oid), s.objects[oid]) && DocOk(s.objects[oid])
    ensures Tidy(s, Mark(oid))
  {
    var o, n := Context(View(s, oid)), NodeAt(s.nodes, View(s, oid).place);
    AlignedPlace(View(s, oid).place);
    LedgerDigests(n, o, l);
  }

  lemma AlignedPlace(p: Place)
    requires PlaceOk(p)
    ensures Aligned(p.beginOffset)
  {
  }

  lemma LedgerDigests(n: S.HashNode, o: S.Obi, l: Ledger)
    requires Aligned(o.beginOffset) && 0 < o.size == l.size && n.hashed == l.hashed && (o.flags == 1 ==> l.resized)
    requires if l.resized then l.hashed == 0
             else l.hashed == l.size || (l.hashed < l.size && l.hashed % ALIGN != 15)
    ensures S.DigestsWhole(n, o)
  {
    if n.hashed % ALIGN != 15 { NotUnitEnd(o.beginOffset, n.hashed); S.UnitRemainder(o.beginOffset + n.hashed); }
  }

  lemma NotUnitEnd(x: int, y: int)
    requires Aligned(x) && y % ALIGN != 15
    ensures (x + y) % ALIGN != 15
  {
  }

  // ----- whole runs ----------------------------------------------------------------------------------

  /** The ledgers after the first `k` steps. */
  function Books(states: seq<Sys>, steps: seq<Step>, k: nat): map<Oid, Ledger>
    requires k <= |steps| < |states|
  {
    if k == 0 then map[] else Entered(Books(states, steps, k - 1), states[k - 1], steps[k - 1])
  }

  /** Every client is careful and goes by its own ledgers. */
  ghost predicate ClientRun(states: seq<Sys>, steps: seq<Step>) {
    IsRun(states, steps) && forall k: nat :: k < |steps| ==> Heeded(Books(states, steps, k), steps[k])
  }

  lemma {:induction false} BooksOk(states: seq<Sys>, steps: seq<Step>, k: nat)
    requires ClientRun(states, steps) && k < |states|
    requires Inv(states[0]) && states[0].objects == map[] && states[0].nodes == map[]
    ensures Inv(states[k]) && Unlittered(states[k]) && BookOk(states[k], Books(states, steps, k))
  {
    if k > 0 {
      var s, t := states[k - 1], steps[k - 1];
      BooksOk(states, steps, k - 1);
      HeededIsTidy(s, t, Books(states, steps, k - 1));
      StepKeeps(s, t);
      UnlitteredKeeps(s, t);
      BookKeeps(s, t, Books(states, steps, k - 1));
    }
  }

  /** Clients that go by their own ledgers keep every node in order. */
  lemma ClientRunIsTidy(states: seq<Sys>, steps: seq<Step>)
    requires ClientRun(states, steps)
    requires Inv(states[0]) && states[0].objects == map[] && states[0].nodes == map[]
    ensures TidyRun(states, steps)
  {
    forall k: nat | k < |steps| ensures Tidy(states[k], steps[k]) {
      BooksOk(states, steps, k);
      HeededIsTidy(states[k], steps[k], Books(states, steps, k));
    }
  }

  /** Over an empty service, whatever the volumes contain: an object that is created, written,
      resized and completed by such clients reads as the overlay of its writes. */
  lemma ClientReadsBack(states: seq<Sys>, steps: seq<Step>, digest: seq<Byte> -> string, bytes: Cell -> Byte,
                        i: nat, j: nat, pid: nat, size: int, offset: int)
    requires ClientRun(states, steps) && states[0] == Nothing(digest, bytes, map[]) && CollisionFree(digest)
    requires i < j < |states| && steps[i] == Fill(pid)
    requires var oid := states[i].calls[pid].oid;
             Finished(states[j], oid) && forall k :: i < k < j ==> !Ends(states[k], steps[k], oid)
    ensures var c := states[i].calls[pid];
            && SizeOk(c.size)
            && Read(states[j], c.oid, size, offset)
               == Excerpt(Folded(Content(states[i].bytes, c.stage.place, c.size), steps, i + 1, j, c.oid), size, offset)
  {
    EmptyIsSound(digest, bytes);
    ClientRunIsTidy(states, steps);
    CreatedReadsBack(states, steps, i, j, pid, size, offset);
  }

  /** ... that is, byte for byte, as what was last written, and elsewhere as what its storage held. */
  lemma ClientReadsLastWrites(states: seq<Sys>, steps: seq<Step>, digest: seq<Byte> -> string, bytes: Cell -> Byte,
                              i: nat, j: nat, pid: nat, size: int, offset: int)
    requires ClientRun(states, steps) && states[0] == Nothing(digest, bytes, map[]) && CollisionFree(digest)
    requires i < j < |states| && steps[i] == Fill(pid)
    requires var oid := states[i].calls[pid].oid;
             Finished(states[j], oid) && forall k :: i < k < j ==> !Ends(states[k], steps[k], oid)
    ensures var c := states[i].calls[pid];
            && SizeOk(c.size)
            && var w, total := Content(states[i].bytes, c.stage.place, c.size), states[j].objects[c.oid].size;
               && total <= |w|
               && RepliesLastWrites(Read(states[j], c.oid, size, offset), w, steps, i + 1, j, c.oid, total, size,
                                    offset)
  {
    EmptyIsSound(digest, bytes);
    ClientRunIsTidy(states, steps);
    assert TablesOk(states[i]) by { RunSound(states, steps, i); }
    FillHolds(states[i], pid);
    var c := states[i].calls[pid];
    ReadsLastWrites(states, steps, i + 1, j, c.oid, Content(states[i].bytes, c.stage.place, c.size), size, offset);
  }
}
