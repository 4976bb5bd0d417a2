/**
 What an object contains, from its creation to any later read: the overlay of its writes. Sharing
 storage by hash keeps it, as long as the storage nodes digest the objects' own bytes.
 */
module ObjectContents {
  import opened Layout
  import opened Ownership
  import opened HexCodec
  import opened ObjectSpec
  import opened ObjectProof
  import opened ObjectRuns
  import opened ObjectNodes
  import S = StorageSpec

  // ----- what an object contains -------------------------------------------------------------------

  /** `before` with `cut` laid over it from `offset` on. */
  function Overlay(before: seq<Byte>, offset: int, cut: seq<Byte>): (r: seq<Byte>)
    requires 0 <= offset && offset + |cut| <= |before|
    ensures |r| == |before|
    ensures forall i :: 0 <= i < |r| ==> r[i] == if offset <= i < offset + |cut| then cut[i - offset] else before[i]
  {
    before[..offset] + cut + before[offset + |cut|..]
  }

  /** The contents `w` of object `oid` after a step: a write, cut at the end, is laid over them, and
      a resize truncates them; nothing else matters. */
  function After(w: seq<Byte>, t: Step, oid: Oid): seq<Byte> {
    if t.Write? && t.oid == oid && 0 <= t.offset < |w| then Overlay(w, t.offset, Clipped(|w|, t.offset, t.data))
    else if t.Resize? && t.oid == oid && 0 <= t.newSize <= |w| then w[..t.newSize]
    else w
  }

  /** Byte `i` after a write is the byte written there, if there is one, else the byte before. */
  lemma AfterWrite(w: seq<Byte>, oid: Oid, offset: int, data: seq<Byte>, i: int)
    requires 0 <= offset < |w| && 0 <= i < |w|
    ensures |After(w, Write(oid, offset, data), oid)| == |w|
    ensures After(w, Write(oid, offset, data), oid)[i]
            == if offset <= i < offset + |data| then data[i - offset] else w[i]
  {
  }

  /** Of the object's bytes those that `data` covers from `offset` on are its, and all others as before. */
  ghost predicate Overwritten(before: Cell -> Byte, after: Cell -> Byte, d: Doc, offset: int, data: seq<Byte>) {
    forall k :: 0 <= k - Pos(d.place) < d.size ==>
      after((d.place.vol, k)) == if offset <= k - Pos(d.place) < offset + |data| then data[k - Pos(d.place) - offset]
                                 else before((d.place.vol, k))
  }

  /** A write stores every byte of `data` that lies inside the object, and changes no other of it. */
  lemma WriteStores(s: Sys, oid: Oid, offset: int, data: seq<Byte>)
    requires TablesOk(s) && Enabled(s, Write(oid, offset, data)) && Usable(s, oid)
    ensures oid in s.objects
    ensures var u, d := Apply(s, Write(oid, offset, data)), s.objects[oid];
            && oid in u.objects && u.objects[oid].place == d.place && u.objects[oid].size == d.size
            && Overwritten(s.bytes, u.bytes, d, offset, data)
  {
    HandlerView(s, oid);
    WriteIs(s, oid, offset, data);
    OverwrittenAll(s.bytes, s.objects[oid], offset, data);
  }

  lemma OverwrittenAll(bytes: Cell -> Byte, d: Doc, offset: int, data: seq<Byte>)
    requires PlaceOk(d.place) && 0 <= offset < d.size
    ensures var after := Written(bytes, d.place.vol, Pos(Address(d.place, offset)), Clipped(d.size, offset, data));
            Overwritten(bytes, after, d, offset, data)
  {
    AddressIs(d.place, offset);
  }

  /** ... and after steps `i` up to `j`. */
  function Folded(w: seq<Byte>, steps: seq<Step>, i: nat, j: nat, oid: Oid): seq<Byte>
    requires j <= |steps|
    decreases j
  {
    if j <= i then w else After(Folded(w, steps, i, j - 1, oid), steps[j - 1], oid)
  }

  /** The step writes byte `k` of the object. */
  predicate WritesAt(t: Step, oid: Oid, k: int) {
    t.Write? && t.oid == oid && 0 <= t.offset <= k < t.offset + |t.data|
  }

  /** Step `m` is the last one before `j` to write byte `k`. */
  predicate LastWriteAt(steps: seq<Step>, m: int, j: int, oid: Oid, k: int)
    requires 0 <= m < j <= |steps|
  {
    WritesAt(steps[m], oid, k) && forall n :: m < n < j ==> !WritesAt(steps[n], oid, k)
  }

  /** Every byte is the one last written there, or else the one it was before. */
  lemma {:induction false} LastWriteWins(w: seq<Byte>, steps: seq<Step>, i: nat, j: nat, oid: Oid, k: int)
    requires i <= j <= |steps| && 0 <= k < |Folded(w, steps, i, j, oid)|
    ensures k < |w|
    ensures forall m :: i <= m < j && LastWriteAt(steps, m, j, oid, k) ==>
              Folded(w, steps, i, j, oid)[k] == steps[m].data[k - steps[m].offset]
    ensures (forall m :: i <= m < j ==> !WritesAt(steps[m], oid, k)) ==> Folded(w, steps, i, j, oid)[k] == w[k]
  {
    if i < j {
      var v, t := Folded(w, steps, i, j - 1, oid), steps[j - 1];
      assert |After(v, t, oid)| <= |v|;
      LastWriteWins(w, steps, i, j - 1, oid, k);
      forall m | i <= m < j && LastWriteAt(steps, m, j, oid, k)
        ensures After(v, t, oid)[k] == steps[m].data[k - steps[m].offset]
      {
        if m < j - 1 { assert LastWriteAt(steps, m, j - 1, oid, k) && !WritesAt(t, oid, k); }
      }
    }
  }

  /** Where the bytes of an object are: with its record as soon as it has joined one. */
  ghost function Home(s: Sys, oid: Oid): Place
    requires oid in s.objects
  {
    if oid in s.busy && (s.busy[oid].Joined? || s.busy[oid].Freed?) && s.busy[oid].key in s.hashes
        then s.hashes[s.busy[oid].key].place
    else s.objects[oid].place
  }

  /** The object, alive, contains `w`. */
  ghost predicate Holds(s: Sys, oid: Oid, w: seq<Byte>) {
    oid in s.objects && oid !in s.dead && |w| == s.objects[oid].size && Content(s.bytes, Home(s, oid), |w|) == w
  }

  /** The step ends the object's life. */
  predicate Ends(s: Sys, t: Step, oid: Oid) { (t.Unlink? || t.Discard? || t.AbortDoc?) && Target(s, t) == oid }

  /** No two byte strings of one length have the same hash. */
  ghost predicate CollisionFree(digest: seq<Byte> -> string) {
    forall x, y :: |x| == |y| && digest(x) == digest(y) ==> x == y
  }

  lemma OverlaidContent(bytes: Cell -> Byte, p: Place, size: int, offset: int, cut: seq<Byte>, at: int)
    requires 0 <= offset && offset + |cut| <= size && at == Pos(p) + offset
    ensures Content(Written(bytes, p.vol, at, cut), p, size) == Overlay(Content(bytes, p, size), offset, cut)
  {
  }

  /** A write lays its data over the object's bytes. */
  lemma WriteHolds(s: Sys, oid: Oid, offset: int, data: seq<Byte>, w: seq<Byte>)
    requires Inv(s) && Enabled(s, Write(oid, offset, data)) && Usable(s, oid) && Holds(s, oid, w)
    ensures Holds(Apply(s, Write(oid, offset, data)), oid, After(w, Write(oid, offset, data), oid))
  {
    HandlerView(s, oid);
    var c := View(s, oid);
    AddressIs(c.place, offset);
    OverlaidContent(s.bytes, c.place, c.size, offset, Clipped(c.size, offset, data), Pos(Address(c.place, offset)));
    WriteIs(s, oid, offset, data);
  }

  lemma ResizeHolds(s: Sys, oid: Oid, newSize: int, w: seq<Byte>)
    requires Inv(s) && Enabled(s, Resize(oid, newSize)) && Usable(s, oid) && Holds(s, oid, w)
    ensures Holds(Apply(s, Resize(oid, newSize)), oid, After(w, Resize(oid, newSize), oid))
  {
    HandlerView(s, oid);
    var p := s.objects[oid].place;
    assert Content(s.bytes, p, newSize) == Content(s.bytes, p, |w|)[..newSize];
  }

  /** An object that joins an existing record moves to storage with the very same bytes. */
  lemma JoinHolds(s: Sys, oid: Oid, w: seq<Byte>)
    requires Inv(s) && Genuine(s) && CollisionFree(s.digest) && Enabled(s, Join(oid)) && Holds(s, oid, w)
    ensures Holds(Apply(s, Join(oid)), oid, w)
  {
    assert OidOk(s, oid) && PhaseOk(s, oid);
    var key := s.busy[oid].key;
    assert TrueKey(s, s.busy[oid].entry.place, key);
    assert key in s.hashes ==> TrueKey(s, s.hashes[key].place, key);
  }

  /** Every other step leaves the bytes where the object's home is. */
  lemma OtherHolds(s: Sys, t: Step, oid: Oid, w: seq<Byte>)
    requires Inv(s) && Enabled(s, t) && Polite(s, t) && Holds(s, oid, w) && !Ends(s, t, oid)
    requires t != Join(oid) && !((t.Write? || t.Resize?) && t.oid == oid)
    ensures Holds(Apply(s, t), oid, w)
  {
    var u := Apply(s, t);
    assert OidOk(s, oid) && DocOk(s.objects[oid]);
    HomeStays(s, t, oid);
    var k := HomeOwner(s, oid);
    ContentStays(s, t, k, Home(s, oid), |w|);
  }

  /** Who owns the bytes of a living object. */
  ghost function HomeOwner(s: Sys, oid: Oid): (k: Owner)
    requires TablesOk(s) && oid in s.objects && oid !in s.dead
    ensures IsOwner(s, k) && OwnedBy(s, k) == ExtentOf(Home(s, oid), s.objects[oid].size)
            && (k.OfObject? ==> k.oid == oid)
    ensures k.OfObject? || s.objects[oid].complete
  {
    var d := s.objects[oid];
    assert OidOk(s, oid) && (oid in s.busy ==> PhaseOk(s, oid));
    if !d.complete || (oid in s.busy && s.busy[oid].Marked?) then OfObject(oid) else OfRecord(KeyOf(d))
  }

  lemma HomeStays(s: Sys, t: Step, oid: Oid)
    requires TablesOk(s) && Enabled(s, t) && Polite(s, t) && oid in s.objects && oid !in s.dead && !Ends(s, t, oid)
    requires t != Join(oid) && !((t.Write? || t.Resize?) && t.oid == oid)
    ensures var u := Apply(s, t);
            oid in u.objects && oid !in u.dead && u.objects[oid].size == s.objects[oid].size
                && Home(u, oid) == Home(s, oid)
  {
    StepGrows(s, t);
    assert OidOk(s, oid);
    if oid != Target(s, t) {
      StepLocal(s, t, oid);
      SameHome(s, Apply(s, t), oid);
    } else {
      HomeTarget(s, t);
    }
  }

  lemma SameHome(s: Sys, u: Sys, oid: Oid)
    requires SameAt(s, u, oid) && HashesGrow(s, u) && oid in s.objects && OidOk(s, oid) && oid !in s.dead
    ensures oid in u.objects && oid !in u.dead && u.objects[oid].size == s.objects[oid].size
            && Home(u, oid) == Home(s, oid)
  {
    assert oid in s.busy && s.busy[oid].key in s.hashes ==> RecordGrows(s, u, s.busy[oid].key);
  }

  lemma HomeTarget(s: Sys, t: Step)
    requires Enabled(s, t) && Polite(s, t) && OidOk(s, Target(s, t)) && Target(s, t) in s.objects
             && Target(s, t) !in s.dead
    requires IsCallStep(t) && t.pid in s.calls ==> CallOk(s, t.pid)
    requires !Ends(s, t, Target(s, t)) && !t.Join? && !t.Write? && !t.Resize?
    ensures var u, oid := Apply(s, t), Target(s, t);
            oid in u.objects && oid !in u.dead && u.objects[oid].size == s.objects[oid].size
                && Home(u, oid) == Home(s, oid)
  {
    if IsCallStep(t) { CallHome(s, t); }
  }

  lemma CallHead(s: Sys, t: Step)
    requires Enabled(s, t) && OidOk(s, Target(s, t)) && Target(s, t) in s.objects && !t.AbortDoc?
    requires IsCallStep(t) && (t.pid in s.calls ==> CallOk(s, t.pid))
    ensures Target(s, t) in Apply(s, t).objects && Apply(s, t).objects[Target(s, t)] == s.objects[Target(s, t)]
  {
    if IsCreation(t) { CreationDoc(s, t); } else { LinkDoc(s, t); }
  }

  lemma CreationDoc(s: Sys, t: Step)
    requires Enabled(s, t) && OidOk(s, Target(s, t)) && Target(s, t) in s.objects && !t.AbortDoc?
    requires IsCreation(t) && (t.pid in s.calls ==> CallOk(s, t.pid))
    ensures Get(ApplyCreation(s, t).objects, Target(s, t)) == Get(s.objects, Target(s, t))
  {
  }

  lemma LinkDoc(s: Sys, t: Step)
    requires Enabled(s, t) && OidOk(s, Target(s, t)) && Target(s, t) in s.objects
    requires IsLink(t) && (t.pid in s.calls ==> CallOk(s, t.pid))
    ensures Get(ApplyLink(s, t).objects, Target(s, t)) == Get(s.objects, Target(s, t))
  {
  }

  lemma CallHome(s: Sys, t: Step)
    requires Enabled(s, t) && OidOk(s, Target(s, t)) && Target(s, t) in s.objects && Target(s, t) !in s.dead
    requires IsCallStep(t) && !t.AbortDoc? && (t.pid in s.calls ==> CallOk(s, t.pid))
    ensures var u, oid := Apply(s, t), Target(s, t);
            oid in u.objects && oid !in u.dead && u.objects[oid].size == s.objects[oid].size
                && Home(u, oid) == Home(s, oid)
  {
    var u, oid := Apply(s, t), Target(s, t);
    CallHead(s, t);
    CallLocks(s, t);
    CallDead(s, t);
    StepGrows(s, t);
    assert oid in s.busy && s.busy[oid].key in s.hashes ==> RecordGrows(s, u, s.busy[oid].key);
    if oid in s.busy { assert PhaseOk(s, oid); }
  }

  lemma CallDead(s: Sys, t: Step)
    requires Enabled(s, t) && IsCallStep(t)
    ensures Apply(s, t).dead == s.dead
  {
  }

  lemma StepHolds(s: Sys, t: Step, oid: Oid, w: seq<Byte>)
    requires Inv(s) && Genuine(s) && CollisionFree(s.digest) && Enabled(s, t) && Polite(s, t)
    requires Holds(s, oid, w) && !Ends(s, t, oid)
    ensures Holds(Apply(s, t), oid, After(w, t, oid))
  {
    if t.Write? && t.oid == oid { WriteHolds(s, oid, t.offset, t.data, w); }
    else if t.Resize? && t.oid == oid { ResizeHolds(s, oid, t.newSize, w); }
    else if t == Join(oid) { JoinHolds(s, oid, w); }
    else { OtherHolds(s, t, oid, w); }
  }

  // ----- whole runs ----------------------------------------------------------------------------------

  ghost predicate Sound(s: Sys) {
    Inv(s) && Unlittered(s) && NodesOk(s) && Genuine(s) && CollisionFree(s.digest)
  }

  ghost predicate TidyRun(states: seq<Sys>, steps: seq<Step>) {
    IsRun(states, steps) && forall i :: 0 <= i < |steps| ==> Tidy(states[i], steps[i])
  }

  lemma StepSound(s: Sys, t: Step)
    requires Sound(s) && Enabled(s, t) && Polite(s, t) && Tidy(s, t)
    ensures Sound(Apply(s, t))
  {
    StepKeeps(s, t);
    UnlitteredKeeps(s, t);
    NodesKeep(s, t);
    GenuineKeeps(s, t);
    SameDigest(s, t);
  }

  lemma {:induction false} RunSound(states: seq<Sys>, steps: seq<Step>, i: nat)
    requires TidyRun(states, steps) && Sound(states[0]) && i < |states|
    ensures Sound(states[i])
  {
    if i > 0 {
      RunSound(states, steps, i - 1);
      StepSound(states[i - 1], steps[i - 1]);
    }
  }

  /** An empty service over nodes that have hashed nothing is sound, whatever the volumes contain. */
  lemma EmptyIsSound(digest: seq<Byte> -> string, bytes: Cell -> Byte)
    requires CollisionFree(digest)
    ensures Sound(Nothing(digest, bytes, map[]))
  {
    EmptyIsGood(digest, bytes, map[]);
  }

  /** Step `k` treats contents `w` of the object as promised. */
  ghost predicate HoldsAt(states: seq<Sys>, steps: seq<Step>, k: nat, oid: Oid, w: seq<Byte>)
    requires k < |steps| && k + 1 < |states|
  {
    Holds(states[k], oid, w) && !Ends(states[k], steps[k], oid) ==> Holds(states[k + 1], oid, After(w, steps[k], oid))
  }

  lemma HoldsAlways(states: seq<Sys>, steps: seq<Step>, oid: Oid)
    requires TidyRun(states, steps) && Sound(states[0])
    ensures forall k: nat, w :: k < |steps| ==> HoldsAt(states, steps, k, oid, w)
  {
    forall k: nat, w | k < |steps| ensures HoldsAt(states, steps, k, oid, w) {
      RunSound(states, steps, k);
      if Holds(states[k], oid, w) && !Ends(states[k], steps[k], oid) { StepHolds(states[k], steps[k], oid, w); }
    }
  }

  lemma {:induction false} HoldsRun(states: seq<Sys>, steps: seq<Step>, i: nat, j: nat, oid: Oid, w: seq<Byte>)
    requires |states| == |steps| + 1 && forall k: nat, v :: k < |steps| ==> HoldsAt(states, steps, k, oid, v)
    requires i <= j < |states| && Holds(states[i], oid, w) && forall k :: i <= k < j ==> !Ends(states[k], steps[k], oid)
    ensures Holds(states[j], oid, Folded(w, steps, i, j, oid))
  {
    if i < j {
      HoldsRun(states, steps, i, j - 1, oid, w);
      assert HoldsAt(states, steps, j - 1, oid, Folded(w, steps, i, j - 1, oid));
    }
  }

  /** An object's contents are the overlay of its writes, through completion and sharing, for as
      long as it lives. */
  lemma ContentIsFold(states: seq<Sys>, steps: seq<Step>, i: nat, j: nat, oid: Oid, w: seq<Byte>)
    requires TidyRun(states, steps) && Sound(states[0]) && i <= j < |states| && Holds(states[i], oid, w)
    requires forall k :: i <= k < j ==> !Ends(states[k], steps[k], oid)
    ensures Holds(states[j], oid, Folded(w, steps, i, j, oid))
  {
    HoldsAlways(states, steps, oid);
    HoldsRun(states, steps, i, j, oid, w);
  }

  lemma FinishedHome(s: Sys, oid: Oid, w: seq<Byte>)
    requires Finished(s, oid) && Holds(s, oid, w)
    ensures Content(s.bytes, s.objects[oid].place, s.objects[oid].size) == w
  {
  }

  /** Reading back: from any moment of an object's life to any later moment when it is complete,
      a read returns the overlay of the writes in between, cut at the object's end. */
  lemma ReadsBack(states: seq<Sys>, steps: seq<Step>, i: nat, j: nat, oid: Oid, w: seq<Byte>, size: int, offset: int)
    requires TidyRun(states, steps) && Sound(states[0]) && i <= j < |states| && Holds(states[i], oid, w)
    requires forall k :: i <= k < j ==> !Ends(states[k], steps[k], oid)
    requires Finished(states[j], oid)
    ensures Read(states[j], oid, size, offset) == Excerpt(Folded(w, steps, i, j, oid), size, offset)
  {
    ContentIsFold(states, steps, i, j, oid, w);
    FinishedHome(states[j], oid, Folded(w, steps, i, j, oid));
    assert Inv(states[j]) by { RunSound(states, steps, j); }
    ReadIsContent(states[j], oid, size, offset);
  }

  /** The step that fills the document of a new object starts its life. */
  lemma FillHolds(s: Sys, pid: nat)
    requires TablesOk(s) && Enabled(s, Fill(pid))
    ensures var c := s.calls[pid];
            SizeOk(c.size) && Holds(Apply(s, Fill(pid)), c.oid, Content(s.bytes, c.stage.place, c.size))
  {
    assert CallOk(s, pid) && OidOk(s, s.calls[pid].oid);
  }

  /** From the creation of an object to any later read of it. */
  lemma CreatedReadsBack(states: seq<Sys>, steps: seq<Step>, i: nat, j: nat, pid: nat, size: int, offset: int)
    requires TidyRun(states, steps) && Sound(states[0]) && i < j < |states| && steps[i] == Fill(pid)
    requires var oid := states[i].calls[pid].oid;
             Finished(states[j], oid) && forall k :: i < k < j ==> !Ends(states[k], steps[k], oid)
    ensures var c := states[i].calls[pid];
            && SizeOk(c.size)
            && Read(states[j], c.oid, size, offset)
               == Excerpt(Folded(Content(states[i].bytes, c.stage.place, c.size), steps, i + 1, j, c.oid), size, offset)
  {
    var c := states[i].calls[pid];
    assert TablesOk(states[i]) by { RunSound(states, steps, i); }
    FillHolds(states[i], pid);
    ReadsBack(states, steps, i + 1, j, c.oid, Content(states[i].bytes, c.stage.place, c.size), size, offset);
  }

  /** The reply has the bytes last written, where any were, and `w` elsewhere; as many as asked for
      and there are up to `total`. */
  ghost predicate RepliesLastWrites(r: ReadReply, w: seq<Byte>, steps: seq<Step>, i: nat, j: nat, oid: Oid,
                                    total: int, size: int, offset: int)
    requires i <= j <= |steps| && total <= |w|
  {
    if !(0 <= offset < total && 0 < size <= CHIP_MAX_SIZE) then r == ReadParamError
    else
      && r.ReadData? && |r.data| == (if offset + size > total then total - offset else size)
      && (r.cut <==> offset + size > total)
      && (forall n :: 0 <= n < |r.data| ==>
            && (forall m :: i <= m < j && LastWriteAt(steps, m, j, oid, offset + n) ==>
                  r.data[n] == steps[m].data[offset + n - steps[m].offset])
            && ((forall m :: i <= m < j ==> !WritesAt(steps[m], oid, offset + n)) ==> r.data[n] == w[offset + n]))
  }

  lemma ExcerptLastWrites(w: seq<Byte>, steps: seq<Step>, i: nat, j: nat, oid: Oid, size: int, offset: int)
    requires i <= j <= |steps|
    ensures var v := Folded(w, steps, i, j, oid);
            |v| <= |w| && RepliesLastWrites(Excerpt(v, size, offset), w, steps, i, j, oid, |v|, size, offset)
  {
    var v := Folded(w, steps, i, j, oid);
    FoldedShorter(w, steps, i, j, oid);
    ExcerptIs(v, size, offset);
    var r := Excerpt(v, size, offset);
    if r.ReadData? {
      forall n | 0 <= n < |r.data|
        ensures forall m :: i <= m < j && LastWriteAt(steps, m, j, oid, offset + n) ==>
                  r.data[n] == steps[m].data[offset + n - steps[m].offset]
        ensures (forall m :: i <= m < j ==> !WritesAt(steps[m], oid, offset + n)) ==> r.data[n] == w[offset + n]
      {
        assert r.data[n] == v[offset + n];
        LastWriteWins(w, steps, i, j, oid, offset + n);
      }
    }
  }

  lemma {:induction false} FoldedShorter(w: seq<Byte>, steps: seq<Step>, i: nat, j: nat, oid: Oid)
    requires j <= |steps|
    ensures |Folded(w, steps, i, j, oid)| <= |w|
    decreases j
  {
    if i < j { FoldedShorter(w, steps, i, j - 1, oid); }
  }

  /** From any moment of an object's life to any later moment when it is complete, a read returns
      what was last written. */
  lemma ReadsLastWrites(states: seq<Sys>, steps: seq<Step>, i: nat, j: nat, oid: Oid, w: seq<Byte>, size: int,
                        offset: int)
    requires TidyRun(states, steps) && Sound(states[0]) && i <= j < |states| && Holds(states[i], oid, w)
    requires forall k :: i <= k < j ==> !Ends(states[k], steps[k], oid)
    requires Finished(states[j], oid)
    ensures var total := states[j].objects[oid].size;
            && total <= |w|
            && RepliesLastWrites(Read(states[j], oid, size, offset), w, steps, i, j, oid, total, size, offset)
  {
    ReadsBack(states, steps, i, j, oid, w, size, offset);
    ContentIsFold(states, steps, i, j, oid, w);
    ExcerptLastWrites(w, steps, i, j, oid, size, offset);
  }

  // ----- heads -----------------------------------------------------------------------------------

  /** The head in the object's document is the head of `w`, which is as long as the object. */
  ghost predicate HeadMatches(s: Sys, oid: Oid, w: seq<Byte>) {
    oid in s.objects && 0 < s.objects[oid].size == |w| && Hex2Bin(s.objects[oid].head) == w[..HeadLen(|w|)]
  }

  /** The document of a new object has a head of digits '0', whatever its storage contains: it is the
      head of the object exactly if its first bytes, up to sixteen, are zeros. */
  lemma NewHeadIff(s: Sys, pid: nat)
    requires TablesOk(s) && Enabled(s, Fill(pid))
    ensures var c, u := s.calls[pid], Apply(s, Fill(pid));
            && SizeOk(c.size) && c.oid in u.objects
            && |u.objects[c.oid].head| == 2 * (if c.size < 16 then c.size else 16)
            && (forall n :: 0 <= n < |u.objects[c.oid].head| ==> u.objects[c.oid].head[n] == '0')
            && var w := Content(s.bytes, c.stage.place, c.size);
               HeadMatches(u, c.oid, w) <==> forall n :: 0 <= n < 16 && n < c.size ==> w[n] == 0
  {
    assert CallOk(s, pid);
    var size := s.calls[pid].size;
    DecodeEncode(Zeros(HeadLen(size)));
    ZeroDigits(Zeros(HeadLen(size)));
    ZeroHead(Content(s.bytes, s.calls[pid].stage.place, size), size);
  }

  lemma ZeroHead(w: seq<Byte>, size: int)
    requires 0 < size == |w|
    ensures Zeros(HeadLen(size)) == w[..HeadLen(size)] <==> forall n :: 0 <= n < 16 && n < size ==> w[n] == 0
  {
    if forall n :: 0 <= n < 16 && n < size ==> w[n] == 0 {
      assert Zeros(HeadLen(size)) == w[..HeadLen(size)];
    } else {
      var n :| 0 <= n < 16 && n < size && w[n] != 0;
      assert w[..HeadLen(size)][n] != 0;
    }
  }

  lemma HeadOverlays(d: Doc, c: Cached, offset: int, data: seq<Byte>, w: seq<Byte>)
    requires 0 <= offset < c.size == |w| && c.head == Hex2Bin(d.head) && |c.head| == HeadLen(c.size)
    requires c.head == w[..HeadLen(|w|)] || (offset == 0 && HeadLen(c.size) <= |data|)
    ensures Hex2Bin(DocWritten(d, c, offset, data).head)
            == Overlay(w, offset, Clipped(c.size, offset, data))[..HeadLen(|w|)]
  {
    DecodeEncode(EntryWritten(c, offset, data).head);
    HeadIsPrefix(c.head, w, c.size, offset, Clipped(c.size, offset, data));
  }

  lemma HeadIsPrefix(head: seq<Byte>, content: seq<Byte>, size: int, offset: int, cut: seq<Byte>)
    requires 0 < size == |content| && 0 <= offset && offset + |cut| <= size && |head| == HeadLen(size)
    requires head == content[..HeadLen(size)] || (offset == 0 && HeadLen(size) <= |cut|)
    ensures HeadLen(size) > offset ==>
              HeadAfter(head, size, offset, cut) == Overlay(content, offset, cut)[..HeadLen(size)]
    ensures HeadLen(size) <= offset ==> Overlay(content, offset, cut)[..HeadLen(size)] == head
  {
    var len := HeadLen(size);
    var after := Overlay(content, offset, cut)[..len];
    if len > offset {
      assert Resized(head, len) == head;
      forall k | 0 <= k < len ensures HeadAfter(head, size, offset, cut)[k] == after[k] { }
      assert HeadAfter(head, size, offset, cut) == after;
    } else {
      forall k | 0 <= k < len ensures after[k] == head[k] { }
      assert after == head;
    }
  }

  /** A write keeps a head that matches; one that covers the head makes it match. */
  lemma WriteHead(s: Sys, oid: Oid, offset: int, data: seq<Byte>, w: seq<Byte>)
    requires TablesOk(s) && Enabled(s, Write(oid, offset, data)) && Usable(s, oid)
    requires oid in s.objects && |w| == s.objects[oid].size
    requires HeadMatches(s, oid, w) || (offset == 0 && HeadLen(|w|) <= |data|)
    ensures HeadMatches(Apply(s, Write(oid, offset, data)), oid, After(w, Write(oid, offset, data), oid))
  {
    HandlerView(s, oid);
    var c := View(s, oid);
    WriteIs(s, oid, offset, data);
    DecodeEncode(c.head);
    HeadOverlays(s.objects[oid], c, offset, data, w);
  }

  lemma ResizeHead(s: Sys, oid: Oid, newSize: int, w: seq<Byte>)
    requires TablesOk(s) && Enabled(s, Resize(oid, newSize)) && Usable(s, oid) && HeadMatches(s, oid, w)
    ensures HeadMatches(Apply(s, Resize(oid, newSize)), oid, After(w, Resize(oid, newSize), oid))
  {
    HandlerView(s, oid);
    DecodeEncode(View(s, oid).head);
    ResizedHead(s.objects[oid], View(s, oid), newSize, w);
  }

  lemma ResizedHead(d: Doc, c: Cached, newSize: int, w: seq<Byte>)
    requires 0 < newSize < c.size == |w| && c.head == w[..HeadLen(|w|)]
    ensures Hex2Bin(DocResized(d, c, newSize).head) == w[..newSize][..HeadLen(newSize)]
  {
    DecodeEncode(Resized(c.head, HeadLen(newSize)));
    assert w[..HeadLen(|w|)][..HeadLen(newSize)] == w[..newSize][..HeadLen(newSize)];
  }

  /** Any other step leaves the head and the size of a living object. */
  lemma OtherHead(s: Sys, t: Step, oid: Oid)
    requires TablesOk(s) && Enabled(s, t) && oid in s.objects && !Ends(s, t, oid)
    requires !((t.Write? || t.Resize?) && t.oid == oid)
    ensures var u := Apply(s, t);
            oid in u.objects && u.objects[oid].head == s.objects[oid].head && u.objects[oid].size == s.objects[oid].size
  {
    assert OidOk(s, oid);
    if oid != Target(s, t) { StepLocal(s, t, oid); } else { TargetHead(s, t); }
  }

  lemma TargetHead(s: Sys, t: Step)
    requires Enabled(s, t) && OidOk(s, Target(s, t)) && Target(s, t) in s.objects && !Ends(s, t, Target(s, t))
    requires IsCallStep(t) && t.pid in s.calls ==> CallOk(s, t.pid)
    requires !t.Write? && !t.Resize?
    ensures var u, oid := Apply(s, t), Target(s, t);
            oid in u.objects && u.objects[oid].head == s.objects[oid].head && u.objects[oid].size == s.objects[oid].size
  {
    if IsCallStep(t) { CallHead(s, t); }
  }

  lemma HeadStep(s: Sys, t: Step, oid: Oid, w: seq<Byte>)
    requires Inv(s) && Enabled(s, t) && Polite(s, t) && HeadMatches(s, oid, w) && !Ends(s, t, oid)
    ensures HeadMatches(Apply(s, t), oid, After(w, t, oid))
  {
    if t.Write? && t.oid == oid { WriteHead(s, oid, t.offset, t.data, w); }
    else if t.Resize? && t.oid == oid { ResizeHead(s, oid, t.newSize, w); }
    else { OtherHead(s, t, oid); }
  }

  /** Step `k` treats a matching head as promised. */
  ghost predicate HeadAt(states: seq<Sys>, steps: seq<Step>, k: nat, oid: Oid, w: seq<Byte>)
    requires k < |steps| && k + 1 < |states|
  {
    HeadMatches(states[k], oid, w) && !Ends(states[k], steps[k], oid) ==>
      HeadMatches(states[k + 1], oid, After(w, steps[k], oid))
  }

  lemma HeadAlways(states: seq<Sys>, steps: seq<Step>, oid: Oid)
    requires IsRun(states, steps) && Inv(states[0])
    ensures forall k: nat, w :: k < |steps| ==> HeadAt(states, steps, k, oid, w)
  {
    forall k: nat, w | k < |steps| ensures HeadAt(states, steps, k, oid, w) {
      RunKeeps(states, steps, k);
      if HeadMatches(states[k], oid, w) && !Ends(states[k], steps[k], oid) { HeadStep(states[k], steps[k], oid, w); }
    }
  }

  lemma {:induction false} HeadCarried(states: seq<Sys>, steps: seq<Step>, i: nat, j: nat, oid: Oid, w: seq<Byte>)
    requires |states| == |steps| + 1 && forall k: nat, v :: k < |steps| ==> HeadAt(states, steps, k, oid, v)
    requires i <= j < |states| && HeadMatches(states[i], oid, w)
    requires forall k :: i <= k < j ==> !Ends(states[k], steps[k], oid)
    ensures HeadMatches(states[j], oid, Folded(w, steps, i, j, oid))
  {
    if i < j {
      HeadCarried(states, steps, i, j - 1, oid, w);
      assert HeadAt(states, steps, j - 1, oid, Folded(w, steps, i, j - 1, oid));
    }
  }

  /** A head that matches goes on matching, whatever is written, until the object's life ends. */
  lemma HeadRun(states: seq<Sys>, steps: seq<Step>, i: nat, j: nat, oid: Oid, w: seq<Byte>)
    requires IsRun(states, steps) && Inv(states[0]) && i <= j < |states| && HeadMatches(states[i], oid, w)
    requires forall k :: i <= k < j ==> !Ends(states[k], steps[k], oid)
    ensures HeadMatches(states[j], oid, Folded(w, steps, i, j, oid))
  {
    HeadAlways(states, steps, oid);
    HeadCarried(states, steps, i, j, oid, w);
  }

  /** From the first write that covers the head on, the head in the document is that of the object:
      it is the head in the key of the record the object ends up with, and the first bytes there. */
  lemma RecordHeadIsContent(states: seq<Sys>, steps: seq<Step>, i: nat, j: nat, oid: Oid, data: seq<Byte>, w: seq<Byte>)
    requires TidyRun(states, steps) && Sound(states[0]) && i < j < |states| && Holds(states[i], oid, w)
    requires steps[i] == Write(oid, 0, data) && HeadLen(|w|) <= |data|
    requires (forall k :: i <= k < j ==> !Ends(states[k], steps[k], oid)) && Finished(states[j], oid)
    ensures var s, key := states[j], KeyOf(states[j].objects[oid]);
            && key in s.hashes && 0 < key.size && |key.head| == 2 * (if key.size < 16 then key.size else 16)
            && forall n :: 0 <= n < 16 && n < key.size ==>
                 Hex2Bin(key.head)[n] == Content(s.bytes, s.hashes[key].place, key.size)[n]
  {
    assert Inv(states[i]) by { RunSound(states, steps, i); }
    WriteHead(states[i], oid, 0, data, w);
    HeadRun(states, steps, i + 1, j, oid, After(w, steps[i], oid));
    FoldedFrom(w, steps, i, j, oid);
    ContentIsFold(states, steps, i, j, oid, w);
    assert Inv(states[j]) by { RunSound(states, steps, j); }
    HeadOfRecord(states[j], oid, Folded(w, steps, i, j, oid));
  }

  lemma HeadOfRecord(s: Sys, oid: Oid, w: seq<Byte>)
    requires Inv(s) && Finished(s, oid) && Holds(s, oid, w) && HeadMatches(s, oid, w)
    ensures var key := KeyOf(s.objects[oid]);
            && key in s.hashes && 0 < key.size && |key.head| == 2 * (if key.size < 16 then key.size else 16)
            && forall n :: 0 <= n < 16 && n < key.size ==>
                 Hex2Bin(key.head)[n] == Content(s.bytes, s.hashes[key].place, key.size)[n]
  {
    assert OidOk(s, oid);
    FinishedHome(s, oid, w);
    var head := Hex2Bin(s.objects[oid].head);
    assert forall n :: 0 <= n < |head| ==> head[n] == w[n];
  }

  lemma {:induction false} FoldedFrom(w: seq<Byte>, steps: seq<Step>, i: nat, j: nat, oid: Oid)
    requires i < j <= |steps|
    ensures Folded(w, steps, i, j, oid) == Folded(After(w, steps[i], oid), steps, i + 1, j, oid)
  {
    if i + 1 < j { FoldedFrom(w, steps, i, j - 1, oid); }
  }
}
