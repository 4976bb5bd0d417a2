/**
 The hash nodes of objects under construction, through every interleaving of careful calls: they
 hash what the objects contain, none is left behind, and so the hash of every record is true.
 */
module ObjectNodes {
  import opened Layout
  import opened Ownership
  import opened HexCodec
  import opened ObjectSpec
  import opened ObjectProof
  import opened ObjectRuns
  import S = StorageSpec

  // ----- what the node has hashed ----------------------------------------------------------------

  /** The node has hashed a prefix of the object at `p`. */
  ghost predicate HashesPrefix(bytes: Cell -> Byte, nodes: map<Place, S.HashNode>, p: Place, size: int) {
    var n := NodeAt(nodes, p);
    0 <= n.hashed <= size && n.fed == Content(bytes, p, n.hashed)
  }

  /** What else a careful client does: it does not write to hashed bytes, does not cut into them with
      a resize, completes an object in a way that digests it whole, and does not delete an
      incomplete object whose node has a hash of it, that is, one it has written to. */
  ghost predicate Tidy(s: Sys, t: Step)
    requires Enabled(s, t)
  {
    match t
    case Write(oid, offset, data) => NodeAt(s.nodes, View(s, oid).place).hashed <= offset
    case Resize(oid, newSize) => NodeAt(s.nodes, View(s, oid).place).hashed <= newSize
    case Mark(oid) => S.DigestsWhole(NodeAt(s.nodes, View(s, oid).place), Context(View(s, oid)))
    case Discard(oid) => View(s, oid).place !in s.nodes
    case _ => true
  }

  /** The hash node of an object under construction is in order. */
  ghost predicate Prepared(s: Sys, oid: Oid) {
    IsOpen(s, oid) ==> HashesPrefix(s.bytes, s.nodes, s.objects[oid].place, s.objects[oid].size)
  }

  ghost predicate IsOpen(s: Sys, oid: Oid) { oid in s.objects && !s.objects[oid].complete && oid !in s.dead }

  ghost predicate NodesOk(s: Sys) { forall oid: Oid :: Prepared(s, oid) }

  /** Every hash node is that of an object its creator may write to. */
  ghost predicate Unlittered(s: Sys) { forall p :: p in s.nodes ==> InUse(s, p) }

  ghost predicate InUse(s: Sys, p: Place) { exists oid: Oid :: UsesNode(s, oid, p) }

  ghost predicate UsesNode(s: Sys, oid: Oid, p: Place) {
    IsOpen(s, oid) && oid !in s.making && s.objects[oid].place == p
  }

  /** What the node digests is the object if and only if it has hashed a prefix of it: given that
      it digests the object's positions and has counted what it was fed. */
  lemma InputIsContentIff(bytes: Cell -> Byte, nodes: map<Place, S.HashNode>, c: Cached)
    requires PlaceOk(c.place) && SizeOk(c.size)
    requires var n := NodeAt(nodes, c.place);
             0 <= n.hashed && |n.fed| == n.hashed && S.DigestsWhole(n, Context(c))
    ensures NodeInput(bytes, nodes, c) == Content(bytes, c.place, c.size) <==>
              HashesPrefix(bytes, nodes, c.place, c.size)
  {
    var n, o, whole := NodeAt(nodes, c.place), Context(c), Content(bytes, c.place, c.size);
    S.ResumeIsExact(n, o);
    S.AlignedRemainder(o.beginOffset);
    assert whole[..n.hashed] == Content(bytes, c.place, n.hashed);
    var rest := whole[n.hashed..];
    assert S.Remaining(n, o) > 0 ==> rest == Stretch(bytes, c.place.vol, S.ResumePos(n, o), S.Remaining(n, o));
    assert NodeInput(bytes, nodes, c) == n.fed + rest;
    assert whole == whole[..n.hashed] + rest;
    assert NodeInput(bytes, nodes, c)[..n.hashed] == n.fed;
  }

  // ----- tidy steps keep the nodes in order ---------------------------------------------------------

  lemma WritePrepared(bytes: Cell -> Byte, nodes: map<Place, S.HashNode>, p: Place, size: int, offset: int,
                      part: seq<Byte>)
    requires PlaceOk(p) && HashesPrefix(bytes, nodes, p, size) && NodeAt(nodes, p).hashed <= offset
             && offset + |part| <= size
    ensures HashesPrefix(Written(bytes, p.vol, Pos(Address(p, offset)), part), NodesAfter(nodes, p, offset, part), p,
                         size)
  {
    AddressIs(p, offset);
    var n, at := NodeAt(nodes, p), Pos(Address(p, offset));
    var after := Written(bytes, p.vol, at, part);
    assert Content(after, p, n.hashed) == Content(bytes, p, n.hashed);
    if n.hashed == offset {
      assert Content(after, p, offset + |part|) == Content(bytes, p, offset) + part;
    }
  }

  lemma ShrinkPrepared(bytes: Cell -> Byte, nodes: map<Place, S.HashNode>, p: Place, size: int, newSize: int)
    requires HashesPrefix(bytes, nodes, p, size) && NodeAt(nodes, p).hashed <= newSize
    ensures HashesPrefix(bytes, nodes, p, newSize)
  {
  }

  lemma SamePrepared(s: Sys, t: Sys, p: Place, size: int)
    requires HashesPrefix(s.bytes, s.nodes, p, size) && NodeAt(t.nodes, p) == NodeAt(s.nodes, p) && 0 <= size
    requires Content(t.bytes, p, size) == Content(s.bytes, p, size)
    ensures HashesPrefix(t.bytes, t.nodes, p, size)
  {
    var n := NodeAt(s.nodes, p).hashed;
    assert Content(t.bytes, p, n) == Content(t.bytes, p, size)[..n];
    assert Content(s.bytes, p, n) == Content(s.bytes, p, size)[..n];
  }

  function PlaceOf(s: Sys, k: Owner): Place
    requires match k case OfObject(oid) => oid in s.objects case OfRecord(key) => key in s.hashes
             case OfCall(pid) => pid in s.calls && HoldsExtent(s.calls[pid])
  {
    match k
    case OfObject(oid) => s.objects[oid].place
    case OfRecord(key) => s.hashes[key].place
    case OfCall(pid) => s.calls[pid].stage.place
  }

  /** Different owners begin at different places. */
  lemma PlacesApart(s: Sys, j: Owner, k: Owner)
    requires TablesOk(s) && Owned(s) && IsOwner(s, j) && IsOwner(s, k) && j != k
    ensures PlaceOf(s, j) != PlaceOf(s, k)
  {
    OwnedNotEmpty(s, j);
    OwnedNotEmpty(s, k);
    var e := OwnedBy(s, j);
    assert In((e.vol, e.lo), Claims(s)[j]);
    assert In((e.vol, e.lo), Claims(s)[k]) ==> j == k;
  }

  lemma OwnedNotEmpty(s: Sys, k: Owner)
    requires TablesOk(s) && IsOwner(s, k)
    ensures OwnedBy(s, k).lo < OwnedBy(s, k).hi
  {
    match k
    case OfObject(oid) => assert OidOk(s, oid); AlignUp(s.objects[oid].size);
    case OfRecord(key) => assert RecordOk(key, s.hashes[key]); AlignUp(key.size);
    case OfCall(pid) => assert CallOk(s, pid); AlignUp(s.calls[pid].size);
  }

  /** Only the node of the object worked on changes. */
  lemma NodeLocal(s: Sys, t: Step, p: Place)
    requires Enabled(s, t) && ((t.Write? || t.Mark?) ==> p != View(s, t.oid).place)
    ensures NodeAt(Apply(s, t).nodes, p) == NodeAt(s.nodes, p) && (p in Apply(s, t).nodes <==> p in s.nodes)
  {
    if !t.Write? && !t.Mark? { SameNodes(s, t); }
  }

  lemma SameNodes(s: Sys, t: Step)
    requires Enabled(s, t) && !t.Write? && !t.Mark?
    ensures Apply(s, t).nodes == s.nodes
  {
  }

  lemma WriteIs(s: Sys, oid: Oid, offset: int, data: seq<Byte>)
    requires Enabled(s, Write(oid, offset, data)) && oid in s.objects
    ensures var u, c := Apply(s, Write(oid, offset, data)), View(s, oid);
            && oid in u.objects && u.objects[oid] == DocWritten(s.objects[oid], c, offset, data)
            && u.objects[oid].place == s.objects[oid].place && u.objects[oid].size == s.objects[oid].size
            && u.dead == s.dead && u.busy == s.busy && u.hashes == s.hashes
            && u.bytes == Written(s.bytes, c.place.vol, Pos(Address(c.place, offset)), Clipped(c.size, offset, data))
  {
  }

  lemma SameDigest(s: Sys, t: Step)
    requires Enabled(s, t)
    ensures Apply(s, t).digest == s.digest
  {
  }

  // ----- no hash node is left behind -----------------------------------------------------------------

  /** A step that is none of these leaves the objects in use alone. */
  lemma UseStays(s: Sys, t: Step, oid: Oid, p: Place)
    requires TablesOk(s) && Enabled(s, t) && Polite(s, t) && UsesNode(s, oid, p)
    ensures UsesNode(Apply(s, t), oid, p) || ((t.Mark? || t.Discard?) && t.oid == oid)
  {
    assert OidOk(s, oid);
    if oid != Target(s, t) { StepLocal(s, t, oid); } else { TargetUse(s, t, p); }
  }

  lemma TargetUse(s: Sys, t: Step, p: Place)
    requires Enabled(s, t) && Polite(s, t) && OidOk(s, Target(s, t)) && UsesNode(s, Target(s, t), p)
    requires IsCallStep(t) && t.pid in s.calls ==> CallOk(s, t.pid)
    ensures UsesNode(Apply(s, t), Target(s, t), p) || t.Mark? || t.Discard?
  {
    if t.Unlink? { ViewAgrees(s, t.oid); }
  }

  /** The object a written node belongs to. */
  lemma WriterUses(s: Sys, oid: Oid, offset: int, data: seq<Byte>)
    requires TablesOk(s) && Enabled(s, Write(oid, offset, data)) && Polite(s, Write(oid, offset, data))
    ensures UsesNode(Apply(s, Write(oid, offset, data)), oid, View(s, oid).place)
  {
    HandlerView(s, oid);
    WriteIs(s, oid, offset, data);
    UseStays(s, Write(oid, offset, data), oid, View(s, oid).place);
  }

  /** Neither a completion nor a tidy deletion concerns the object of a node that is left. */
  lemma UserUntouched(s: Sys, t: Step, oid: Oid, p: Place)
    requires TablesOk(s) && Enabled(s, t) && Polite(s, t) && Tidy(s, t) && p in s.nodes && UsesNode(s, oid, p)
    requires t.Mark? ==> p != View(s, t.oid).place
    ensures !((t.Mark? || t.Discard?) && t.oid == oid)
  {
    if t.Mark? || t.Discard? { HandlerView(s, t.oid); }
  }

  lemma UsedAfter(s: Sys, t: Step, p: Place)
    requires TablesOk(s) && Unlittered(s) && Enabled(s, t) && Polite(s, t) && Tidy(s, t) && p in Apply(s, t).nodes
    ensures InUse(Apply(s, t), p)
  {
    if t.Write? && p == View(s, t.oid).place {
      WriterUses(s, t.oid, t.offset, t.data);
    } else {
      StillNode(s, t, p);
      var oid :| UsesNode(s, oid, p);
      UserUntouched(s, t, oid, p);
      UseStays(s, t, oid, p);
    }
  }

  lemma StillNode(s: Sys, t: Step, p: Place)
    requires Enabled(s, t) && p in Apply(s, t).nodes && !(t.Write? && p == View(s, t.oid).place)
    ensures p in s.nodes && (t.Mark? ==> p != View(s, t.oid).place)
  {
    if !t.Write? && !t.Mark? { SameNodes(s, t); }
  }

  /** As long as no client deletes an incomplete object it has written to, no node is left behind. */
  lemma UnlitteredKeeps(s: Sys, t: Step)
    requires TablesOk(s) && Unlittered(s) && Enabled(s, t) && Polite(s, t) && Tidy(s, t)
    ensures Unlittered(Apply(s, t))
  {
    forall p | p in Apply(s, t).nodes ensures InUse(Apply(s, t), p) { UsedAfter(s, t, p); }
  }

  lemma UsedIsHeld(s: Sys, oid: Oid, p: Place)
    requires Inv(s) && UsesNode(s, oid, p)
    ensures (p.vol, Pos(p)) in s.held
  {
    OwnedNotEmpty(s, OfObject(oid));
    assert In((p.vol, Pos(p)), Claims(s)[OfObject(oid)]);
  }

  /** ... and so storage handed out has none. */
  lemma FreshPlace(s: Sys, pid: nat, p: Place)
    requires Inv(s) && Unlittered(s) && Enabled(s, Allot(pid, p))
    ensures p !in s.nodes
  {
    AlignUp(s.calls[pid].size);
    assert (p.vol, Pos(p)) in Cells(ExtentOf(p, s.calls[pid].size));
    if p in s.nodes {
      var oid :| UsesNode(s, oid, p);
      UsedIsHeld(s, oid, p);
    }
  }

  lemma CallPlaceClean(s: Sys, pid: nat)
    requires Inv(s) && Unlittered(s) && Enabled(s, Fill(pid))
    ensures s.calls[pid].stage.place !in s.nodes
  {
    if s.calls[pid].stage.place in s.nodes {
      var oid :| UsesNode(s, oid, s.calls[pid].stage.place);
      PlacesApart(s, OfObject(oid), OfCall(pid));
    }
  }

  // ----- the nodes stay in order ---------------------------------------------------------------------

  /** Whatever another object needs of its node is left alone. */
  lemma OthersPrepared(s: Sys, t: Step, oid: Oid)
    requires Inv(s) && Enabled(s, t) && Polite(s, t) && Prepared(s, oid) && oid != Target(s, t)
    ensures Prepared(Apply(s, t), oid)
  {
    var u := Apply(s, t);
    StepLocal(s, t, oid);
    if IsOpen(s, oid) {
      var d := s.objects[oid];
      assert OidOk(s, oid);
      if t.Write? || t.Mark? { HandlerView(s, t.oid); PlacesApart(s, OfObject(t.oid), OfObject(oid)); }
      NodeLocal(s, t, d.place);
      ContentStays(s, t, OfObject(oid), d.place, d.size);
      SamePrepared(s, u, d.place, d.size);
    }
  }

  lemma WritePreparedAt(s: Sys, oid: Oid, offset: int, data: seq<Byte>)
    requires TablesOk(s) && Enabled(s, Write(oid, offset, data)) && Usable(s, oid) && Prepared(s, oid)
             && Tidy(s, Write(oid, offset, data))
    ensures Prepared(Apply(s, Write(oid, offset, data)), oid)
  {
    HandlerView(s, oid);
    var c := View(s, oid);
    WritePrepared(s.bytes, s.nodes, c.place, c.size, offset, Clipped(c.size, offset, data));
    WriteIs(s, oid, offset, data);
  }

  lemma ResizePreparedAt(s: Sys, oid: Oid, newSize: int)
    requires TablesOk(s) && Enabled(s, Resize(oid, newSize)) && Usable(s, oid) && Prepared(s, oid)
             && Tidy(s, Resize(oid, newSize))
    ensures Prepared(Apply(s, Resize(oid, newSize)), oid)
  {
    HandlerView(s, oid);
    var c := View(s, oid);
    ShrinkPrepared(s.bytes, s.nodes, c.place, c.size, newSize);
  }

  lemma FillPrepared(s: Sys, pid: nat)
    requires TablesOk(s) && Enabled(s, Fill(pid)) && s.calls[pid].stage.place !in s.nodes
    ensures Prepared(Apply(s, Fill(pid)), s.calls[pid].oid)
  {
    assert CallOk(s, pid);
  }

  lemma TargetPrepared(s: Sys, t: Step)
    requires Inv(s) && Enabled(s, t) && Polite(s, t) && Tidy(s, t) && Unlittered(s) && Prepared(s, Target(s, t))
    ensures Prepared(Apply(s, t), Target(s, t))
  {
    if t.Write? {
      WritePreparedAt(s, t.oid, t.offset, t.data);
    } else if t.Resize? {
      ResizePreparedAt(s, t.oid, t.newSize);
    } else if t.Fill? {
      CallPlaceClean(s, t.pid);
      FillPrepared(s, t.pid);
    } else {
      TargetStays(s, t);
    }
  }

  /** Apart from these, a step leaves its open object as it is, or no longer open. */
  lemma TargetStays(s: Sys, t: Step)
    requires TablesOk(s) && Enabled(s, t) && !t.Write? && !t.Resize? && !t.Fill?
    ensures var u, oid := Apply(s, t), Target(s, t);
            IsOpen(u, oid) ==>
              IsOpen(s, oid) && u.objects[oid] == s.objects[oid] && u.bytes == s.bytes && u.nodes == s.nodes
  {
    assert OidOk(s, Target(s, t));
    if IsCallStep(t) { CallStays(s, t); } else { HandlerStays(s, t); }
  }

  lemma CallStays(s: Sys, t: Step)
    requires TablesOk(s) && Enabled(s, t) && IsCallStep(t) && !t.Fill? && OidOk(s, Target(s, t))
    ensures var u, oid := Apply(s, t), Target(s, t);
            && u.bytes == s.bytes && u.nodes == s.nodes
            && (IsOpen(u, oid) ==> IsOpen(s, oid) && u.objects[oid] == s.objects[oid])
  {
    if IsCreation(t) { CreationStays(s, t); } else { LinkStays(s, t); }
  }

  lemma CreationStays(s: Sys, t: Step)
    requires Enabled(s, t) && IsCreation(t) && !t.Fill?
    ensures var u, oid := ApplyCreation(s, t), Target(s, t);
            && u.bytes == s.bytes && u.nodes == s.nodes
            && (IsOpen(u, oid) ==> IsOpen(s, oid) && u.objects[oid] == s.objects[oid])
  {
  }

  lemma LinkStays(s: Sys, t: Step)
    requires Enabled(s, t) && IsLink(t)
    ensures var u, oid := ApplyLink(s, t), Target(s, t);
            && u.bytes == s.bytes && u.nodes == s.nodes
            && (IsOpen(u, oid) ==> IsOpen(s, oid) && u.objects[oid] == s.objects[oid])
  {
  }

  lemma HandlerStays(s: Sys, t: Step)
    requires Enabled(s, t) && !IsCallStep(t) && !t.Write? && !t.Resize? && OidOk(s, Target(s, t))
    ensures var u, oid := Apply(s, t), Target(s, t);
            IsOpen(u, oid) ==>
              IsOpen(s, oid) && u.objects[oid] == s.objects[oid] && u.bytes == s.bytes && u.nodes == s.nodes
  {
  }

  lemma NodesKeep(s: Sys, t: Step)
    requires Inv(s) && Enabled(s, t) && Polite(s, t) && Tidy(s, t) && Unlittered(s) && NodesOk(s)
    ensures NodesOk(Apply(s, t))
  {
    forall oid: Oid ensures Prepared(Apply(s, t), oid) {
      assert Prepared(s, oid);
      if oid == Target(s, t) { TargetPrepared(s, t); } else { OthersPrepared(s, t, oid); }
    }
  }

  // ----- hashes are true ----------------------------------------------------------------------------

  /** The hash of every record, and of every object about to join one, is that of its bytes. */
  ghost predicate Genuine(s: Sys) {
    && (forall key :: key in s.hashes ==> TrueKey(s, s.hashes[key].place, key))
    && (forall oid :: oid in s.busy && s.busy[oid].Marked? ==> TrueKey(s, s.busy[oid].entry.place, s.busy[oid].key))
  }

  ghost predicate TrueKey(s: Sys, p: Place, key: Key) {
    0 <= key.size && s.digest(Content(s.bytes, p, key.size)) == key.hash
  }

  /** A tidy completion digests exactly the object. */
  lemma MarkIsTrue(s: Sys, oid: Oid)
    requires Inv(s) && Enabled(s, Mark(oid)) && Polite(s, Mark(oid)) && Tidy(s, Mark(oid)) && NodesOk(s)
    ensures var u := Apply(s, Mark(oid));
            u.busy[oid].Marked? && TrueKey(u, u.busy[oid].entry.place, u.busy[oid].key)
  {
    HandlerView(s, oid);
    assert Prepared(s, oid);
    InputIsContentIff(s.bytes, s.nodes, View(s, oid));
  }

  lemma GenuineKeeps(s: Sys, t: Step)
    requires Inv(s) && Enabled(s, t) && Polite(s, t) && Tidy(s, t) && NodesOk(s) && Genuine(s)
    ensures Genuine(Apply(s, t))
  {
    var u := Apply(s, t);
    forall key | key in u.hashes ensures TrueKey(u, u.hashes[key].place, key) { RecordGenuine(s, t, key); }
    forall oid | oid in u.busy && u.busy[oid].Marked? ensures TrueKey(u, u.busy[oid].entry.place, u.busy[oid].key) {
      if t == Mark(oid) { MarkIsTrue(s, oid); } else { StillMarked(s, t, oid); }
    }
  }

  lemma RecordGenuine(s: Sys, t: Step, key: Key)
    requires Inv(s) && Enabled(s, t) && Polite(s, t) && Genuine(s) && key in Apply(s, t).hashes
    ensures TrueKey(Apply(s, t), Apply(s, t).hashes[key].place, key)
  {
    if key in s.hashes {
      RecordStep(s, t, key);
      SameDigest(s, t);
      assert TrueKey(s, s.hashes[key].place, key);
    } else {
      NewRecord(s, t, key);
    }
  }

  lemma NewRecord(s: Sys, t: Step, key: Key)
    requires TablesOk(s) && Genuine(s) && Enabled(s, t) && key !in s.hashes && key in Apply(s, t).hashes
    ensures TrueKey(Apply(s, t), Apply(s, t).hashes[key].place, key)
  {
    if t.Join? { assert TrueKey(s, s.busy[t.oid].entry.place, s.busy[t.oid].key); } else { NoNewRecord(s, t); }
  }

  lemma StillMarked(s: Sys, t: Step, oid: Oid)
    requires Inv(s) && Genuine(s) && Enabled(s, t) && Polite(s, t) && t != Mark(oid) && oid in Apply(s, t).busy
             && Apply(s, t).busy[oid].Marked?
    ensures TrueKey(Apply(s, t), Apply(s, t).busy[oid].entry.place, Apply(s, t).busy[oid].key)
  {
    MarkedBefore(s, t, oid);
    assert OidOk(s, oid) && PhaseOk(s, oid);
    assert TrueKey(s, s.busy[oid].entry.place, s.busy[oid].key);
    ContentStays(s, t, OfObject(oid), s.objects[oid].place, s.objects[oid].size);
  }

  lemma MarkedBefore(s: Sys, t: Step, oid: Oid)
    requires Enabled(s, t) && t != Mark(oid) && oid in Apply(s, t).busy && Apply(s, t).busy[oid].Marked?
    ensures oid in s.busy && Apply(s, t).busy[oid] == s.busy[oid] && !(t.Write? && t.oid == oid)
    ensures Apply(s, t).digest == s.digest
  {
    SameDigest(s, t);
    if IsCallStep(t) { CallLocks(s, t); } else if oid != t.oid { StepLocal(s, t, oid); }
  }

  lemma CallLocks(s: Sys, t: Step)
    requires Enabled(s, t) && IsCallStep(t)
    ensures Apply(s, t).busy == s.busy
  {
  }
}
