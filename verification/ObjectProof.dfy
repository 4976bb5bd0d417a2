/** Every step of every polite interleaving keeps the object layer's invariant. */
module ObjectProof {
  import opened Layout
  import opened Ownership
  import opened HexCodec
  import opened ObjectSpec

  // ----- heads -----------------------------------------------------------------------------------

  lemma DecodeAgrees(d: Doc)
    requires DocOk(d)
    ensures Agrees(Decode(d), d)
  {
    EncodeDecode(d.head);
  }

  lemma HeadLengthOk(d: Doc, head: seq<Byte>)
    requires PlaceOk(d.place) && SizeOk(d.size) && |head| == HeadLen(d.size)
    ensures DocOk(d.(head := Bin2Hex(head)))
  {
    DecodeEncode(head);
  }

  lemma NewDocOk(p: Place, size: int)
    requires PlaceOk(p) && SizeOk(size)
    ensures DocOk(NewDoc(p, size)) && Agrees(NewEntry(p, size), NewDoc(p, size))
  {
    HeadLengthOk(Doc(p, size, false, "", ""), Zeros(HeadLen(size)));
  }

  lemma WrittenOk(d: Doc, c: Cached, offset: int, data: seq<Byte>)
    requires DocOk(d) && Agrees(c, d) && 0 <= offset < c.size
    ensures DocOk(DocWritten(d, c, offset, data))
            && Agrees(EntryWritten(c, offset, data), DocWritten(d, c, offset, data))
  {
    HeadLengthOk(d, EntryWritten(c, offset, data).head);
  }

  lemma ResizedOk(d: Doc, c: Cached, newSize: int)
    requires DocOk(d) && Agrees(c, d) && 0 < newSize < c.size
    ensures DocOk(DocResized(d, c, newSize)) && Agrees(EntryResized(c, newSize), DocResized(d, c, newSize))
  {
    HeadLengthOk(d.(size := newSize), EntryResized(c, newSize).head);
  }

  /** What a handler finds agrees with the document. */
  lemma ViewAgrees(s: Sys, oid: Oid)
    requires OidOk(s, oid) && Reachable(s, oid) && oid !in s.stale
    ensures oid in s.objects && Agrees(View(s, oid), s.objects[oid])
  {
    if oid !in s.cache { DecodeAgrees(s.objects[oid]); }
  }

  // ----- a step changes one object -----------------------------------------------------------------

  function Get<K, V>(m: map<K, V>, k: K): Option<V> { if k in m then Some(m[k]) else None }

  ghost predicate SameAt(s: Sys, t: Sys, oid: Oid) {
    && Get(s.objects, oid) == Get(t.objects, oid) && Get(s.busy, oid) == Get(t.busy, oid)
       && Get(s.cache, oid) == Get(t.cache, oid)
    && Get(s.making, oid) == Get(t.making, oid) && (oid in s.bare <==> oid in t.bare)
    && (oid in s.dead <==> oid in t.dead) && (oid in s.stale <==> oid in t.stale)
  }

  /** Records are never removed or moved. */
  ghost predicate HashesGrow(s: Sys, t: Sys) {
    forall key :: key in s.hashes ==> RecordGrows(s, t, key)
  }

  ghost predicate RecordGrows(s: Sys, t: Sys, key: Key)
    requires key in s.hashes
  {
    key in t.hashes && t.hashes[key].place == s.hashes[key].place && t.hashes[key].everCount >= s.hashes[key].everCount
  }

  /** The object a step works on. */
  function Target(s: Sys, t: Step): Oid {
    match t
    case BeginCreate(_, oid, _) => oid
    case Refuse(pid) => OidOfCall(s, pid)
    case Withdraw(pid) => OidOfCall(s, pid)
    case Allot(pid, _) => OidOfCall(s, pid)
    case Fill(pid) => OidOfCall(s, pid)
    case Enter(pid) => OidOfCall(s, pid)
    case Return(pid) => OidOfCall(s, pid)
    case AbortDoc(pid) => OidOfCall(s, pid)
    case AbortFree(pid) => OidOfCall(s, pid)
    case BeginLink(_, oid, _) => oid
    case InsertLink(pid) => OidOfCall(s, pid)
    case FillLink(pid) => OidOfCall(s, pid)
    case UndoLink(pid) => OidOfCall(s, pid)
    case _ => t.oid
  }

  function OidOfCall(s: Sys, pid: nat): Oid { if pid in s.calls then s.calls[pid].oid else "" }

  lemma StepLocal(s: Sys, t: Step, oid: Oid)
    requires Enabled(s, t) && oid != Target(s, t)
    ensures SameAt(s, Apply(s, t), oid)
  {
    if IsCreation(t) { CreationLocal(s, t, oid); }
    else if IsLink(t) { LinkLocal(s, t, oid); }
    else if IsHandler(t) { HandlerLocal(s, t, oid); }
    else { PhaseLocal(s, t, oid); }
  }

  lemma CreationLocal(s: Sys, t: Step, oid: Oid)
    requires Enabled(s, t) && oid != Target(s, t) && IsCreation(t)
    ensures SameAt(s, ApplyCreation(s, t), oid)
  {
  }

  lemma LinkLocal(s: Sys, t: Step, oid: Oid)
    requires Enabled(s, t) && oid != Target(s, t) && IsLink(t)
    ensures SameAt(s, ApplyLink(s, t), oid)
  {
  }

  lemma HandlerLocal(s: Sys, t: Step, oid: Oid)
    requires Enabled(s, t) && oid != Target(s, t) && IsHandler(t)
    ensures SameAt(s, ApplyHandler(s, t), oid)
  {
  }

  lemma PhaseLocal(s: Sys, t: Step, oid: Oid)
    requires Enabled(s, t) && oid != Target(s, t) && IsPhase(t)
    ensures SameAt(s, ApplyPhase(s, t), oid)
  {
  }

  predicate IsCallStep(t: Step) { IsCreation(t) || IsLink(t) }

  lemma CallsLocal(s: Sys, t: Step, pid: nat)
    requires Enabled(s, t) && (IsCallStep(t) ==> pid != t.pid)
    ensures Get(Apply(s, t).calls, pid) == Get(s.calls, pid)
  {
    if !IsCallStep(t) { SameCalls(s, t); }
  }

  lemma SameCalls(s: Sys, t: Step)
    requires Enabled(s, t) && !IsCallStep(t)
    ensures Apply(s, t).calls == s.calls
  {
  }

  lemma StepGrows(s: Sys, t: Step)
    requires Enabled(s, t)
    ensures HashesGrow(s, Apply(s, t))
  {
    if !Counting(t) { UncountingSame(s, t); }
  }

  /** Only these steps change the hash table, or who counts in it. */
  predicate Counting(t: Step) { t.Join? || t.BeginLink? || t.UndoLink? || t.FillLink? || t.Unlink? || t.Forget? }

  lemma UncountingSame(s: Sys, t: Step)
    requires Enabled(s, t) && !Counting(t)
    ensures Apply(s, t).hashes == s.hashes
  {
  }

  lemma OidKept(s: Sys, t: Sys, oid: Oid)
    requires OidOk(s, oid) && SameAt(s, t, oid) && HashesGrow(s, t)
    ensures OidOk(t, oid)
  {
  }

  // ----- the object a step works on ------------------------------------------------------------------

  lemma CreationTarget(s: Sys, t: Step)
    requires Enabled(s, t) && OidOk(s, Target(s, t)) && IsCreation(t) && (t.pid in s.calls ==> CallOk(s, t.pid))
    ensures OidOk(ApplyCreation(s, t), Target(s, t))
  {
    if t.Fill? || t.Enter? { NewDocOk(s.calls[t.pid].stage.place, s.calls[t.pid].size); }
  }

  lemma LinkTarget(s: Sys, t: Step)
    requires Enabled(s, t) && OidOk(s, Target(s, t)) && IsLink(t) && (t.pid in s.calls ==> CallOk(s, t.pid))
    requires t.FillLink? ==> RecordOk(s.calls[t.pid].key, s.hashes[s.calls[t.pid].key])
    ensures OidOk(ApplyLink(s, t), Target(s, t))
  {
  }

  /** The steps of a handler. */
  lemma HandlerTarget(s: Sys, t: Step)
    requires Enabled(s, t) && Polite(s, t) && OidOk(s, Target(s, t)) && IsHandler(t)
    ensures OidOk(ApplyHandler(s, t), Target(s, t))
  {
    if t.Write? || t.Resize? { ChangeTarget(s, t); } else { OtherTarget(s, t); }
  }

  lemma ChangeTarget(s: Sys, t: Step)
    requires Enabled(s, t) && Polite(s, t) && OidOk(s, Target(s, t)) && (t.Write? || t.Resize?)
    ensures OidOk(ApplyHandler(s, t), Target(s, t))
  {
    ViewAgrees(s, t.oid);
    if t.Write? { WrittenOk(s.objects[t.oid], View(s, t.oid), t.offset, t.data); }
    if t.Resize? { ResizedOk(s.objects[t.oid], View(s, t.oid), t.newSize); }
  }

  lemma OtherTarget(s: Sys, t: Step)
    requires Enabled(s, t) && Polite(s, t) && OidOk(s, Target(s, t)) && IsHandler(t) && !t.Write? && !t.Resize?
    ensures OidOk(ApplyHandler(s, t), Target(s, t))
  {
    if t.Load? { DecodeAgrees(s.objects[t.oid]); } else if !t.Expire? { ViewAgrees(s, t.oid); }
  }

  /** The further steps of a completing or deleting call. */
  lemma PhaseTarget(s: Sys, t: Step)
    requires Enabled(s, t) && OidOk(s, Target(s, t)) && IsPhase(t)
    requires forall key :: key in s.hashes ==> RecordOk(key, s.hashes[key])
    ensures OidOk(ApplyPhase(s, t), Target(s, t))
  {
    if t.Join? { JoinTarget(s, t.oid); } else { LaterTarget(s, t); }
  }

  lemma JoinTarget(s: Sys, oid: Oid)
    requires Enabled(s, Join(oid)) && OidOk(s, oid)
    requires forall key :: key in s.hashes ==> RecordOk(key, s.hashes[key])
    ensures OidOk(ApplyPhase(s, Join(oid)), oid)
  {
  }

  lemma LaterTarget(s: Sys, t: Step)
    requires Enabled(s, t) && OidOk(s, Target(s, t)) && IsPhase(t) && !t.Join?
    requires forall key :: key in s.hashes ==> RecordOk(key, s.hashes[key])
    ensures OidOk(ApplyPhase(s, t), Target(s, t))
  {
  }

  lemma TargetOk(s: Sys, t: Step)
    requires Enabled(s, t) && Polite(s, t) && TablesOk(s)
    ensures OidOk(Apply(s, t), Target(s, t))
  {
    assert OidOk(s, Target(s, t));
    if IsCreation(t) { CreationTarget(s, t); }
    else if IsLink(t) { LinkTarget(s, t); }
    else if IsHandler(t) { HandlerTarget(s, t); }
    else { PhaseTarget(s, t); }
  }

  // ----- calls -----------------------------------------------------------------------------------

  /** A call whose object stays as it is, is not disturbed. */
  lemma CallKept(s: Sys, t: Sys, pid: nat)
    requires pid in s.calls && pid in t.calls && t.calls[pid] == s.calls[pid] && CallOk(s, pid) && HashesGrow(s, t)
    requires SameAt(s, t, s.calls[pid].oid)
    ensures CallOk(t, pid)
  {
  }

  /** A step on an object leaves what the other calls with its oid rely on. */
  lemma TargetCallKept(s: Sys, t: Step, pid: nat)
    requires Enabled(s, t) && Polite(s, t) && OidOk(s, Target(s, t))
             && (IsCallStep(t) && t.pid in s.calls ==> CallOk(s, t.pid))
    requires pid in s.calls && CallOk(s, pid) && (IsCallStep(t) ==> t.pid != pid) && s.calls[pid].oid == Target(s, t)
    ensures pid in Apply(s, t).calls && CallOk(Apply(s, t), pid)
  {
    StepGrows(s, t);
    if IsCreation(t) {
      if t.BeginCreate? { NotPending(s, t.oid, pid); }
      CreationApart(s, t, pid);
    } else if IsLink(t) {
      LinkApart(s, t, pid);
    } else if IsHandler(t) {
      HandlerApart(s, t, pid);
    } else {
      PhaseApart(s, t, pid);
    }
  }

  lemma NotPending(s: Sys, oid: Oid, pid: nat)
    requires !LinkPending(s, oid) && pid in s.calls && s.calls[pid].oid == oid
    ensures s.calls[pid].Creating?
  {
  }

  lemma CreationApart(s: Sys, t: Step, pid: nat)
    requires Enabled(s, t) && Polite(s, t) && IsCreation(t) && (t.pid in s.calls ==> CallOk(s, t.pid))
             && OidOk(s, Target(s, t))
    requires pid in s.calls && CallOk(s, pid) && t.pid != pid && s.calls[pid].oid == Target(s, t)
    requires t.BeginCreate? ==> s.calls[pid].Creating?
    ensures pid in ApplyCreation(s, t).calls && CallOk(ApplyCreation(s, t), pid)
  {
  }

  lemma LinkApart(s: Sys, t: Step, pid: nat)
    requires Enabled(s, t) && Polite(s, t) && IsLink(t) && (t.pid in s.calls ==> CallOk(s, t.pid))
             && OidOk(s, Target(s, t))
    requires pid in s.calls && CallOk(s, pid) && t.pid != pid && s.calls[pid].oid == Target(s, t)
    ensures pid in ApplyLink(s, t).calls && CallOk(ApplyLink(s, t), pid)
  {
  }

  lemma HandlerApart(s: Sys, t: Step, pid: nat)
    requires Enabled(s, t) && Polite(s, t) && IsHandler(t) && OidOk(s, Target(s, t))
    requires pid in s.calls && CallOk(s, pid) && s.calls[pid].oid == Target(s, t)
    ensures pid in ApplyHandler(s, t).calls && CallOk(ApplyHandler(s, t), pid)
  {
  }

  lemma PhaseApart(s: Sys, t: Step, pid: nat)
    requires Enabled(s, t) && IsPhase(t) && OidOk(s, Target(s, t)) && HashesGrow(s, Apply(s, t))
    requires pid in s.calls && CallOk(s, pid) && s.calls[pid].oid == Target(s, t)
    ensures pid in ApplyPhase(s, t).calls && CallOk(ApplyPhase(s, t), pid)
  {
  }

  lemma OtherCallOk(s: Sys, t: Step, pid: nat)
    requires Enabled(s, t) && Polite(s, t) && TablesOk(s) && pid in s.calls && (IsCallStep(t) ==> t.pid != pid)
    ensures pid in Apply(s, t).calls && CallOk(Apply(s, t), pid)
  {
    var u, oid := Apply(s, t), s.calls[pid].oid;
    assert OidOk(s, Target(s, t));
    CallsLocal(s, t, pid);
    if oid == Target(s, t) {
      TargetCallKept(s, t, pid);
    } else {
      StepGrows(s, t);
      StepLocal(s, t, oid);
      CallKept(s, u, pid);
    }
  }

  lemma OwnCallOk(s: Sys, t: Step)
    requires Enabled(s, t) && Polite(s, t) && OidOk(s, Target(s, t)) && IsCallStep(t)
             && (t.pid in s.calls ==> CallOk(s, t.pid))
    ensures t.pid in Apply(s, t).calls ==> CallOk(Apply(s, t), t.pid)
  {
    if IsCreation(t) { OwnCreationOk(s, t); } else { OwnLinkOk(s, t); }
  }

  lemma OwnCreationOk(s: Sys, t: Step)
    requires Enabled(s, t) && OidOk(s, Target(s, t)) && IsCreation(t) && (t.pid in s.calls ==> CallOk(s, t.pid))
    ensures t.pid in ApplyCreation(s, t).calls ==> CallOk(ApplyCreation(s, t), t.pid)
  {
  }

  lemma OwnLinkOk(s: Sys, t: Step)
    requires Enabled(s, t) && Polite(s, t) && OidOk(s, Target(s, t)) && IsLink(t)
             && (t.pid in s.calls ==> CallOk(s, t.pid))
    ensures t.pid in ApplyLink(s, t).calls ==> CallOk(ApplyLink(s, t), t.pid)
  {
  }

  lemma RecordsOk(s: Sys, t: Step)
    requires Enabled(s, t) && TablesOk(s)
    ensures forall key :: key in Apply(s, t).hashes ==> RecordOk(key, Apply(s, t).hashes[key])
  {
    assert OidOk(s, Target(s, t));
  }

  lemma OidsKeep(s: Sys, t: Step, oid: Oid)
    requires TablesOk(s) && Enabled(s, t) && Polite(s, t)
    ensures OidOk(Apply(s, t), oid)
  {
    assert OidOk(s, oid);
    if oid == Target(s, t) {
      TargetOk(s, t);
    } else {
      StepGrows(s, t);
      StepLocal(s, t, oid);
      OidKept(s, Apply(s, t), oid);
    }
  }

  lemma CallsKeep(s: Sys, t: Step, pid: nat)
    requires TablesOk(s) && Enabled(s, t) && Polite(s, t) && pid in Apply(s, t).calls
    ensures CallOk(Apply(s, t), pid)
  {
    if IsCallStep(t) && pid == t.pid {
      assert OidOk(s, Target(s, t));
      OwnCallOk(s, t);
    } else {
      CallsLocal(s, t, pid);
      OtherCallOk(s, t, pid);
    }
  }

  lemma TablesKeep(s: Sys, t: Step)
    requires TablesOk(s) && Enabled(s, t) && Polite(s, t)
    ensures TablesOk(Apply(s, t))
  {
    var u := Apply(s, t);
    RecordsOk(s, t);
    forall oid: Oid ensures OidOk(u, oid) { OidsKeep(s, t, oid); }
    forall pid | pid in u.calls ensures CallOk(u, pid) { CallsKeep(s, t, pid); }
  }

  // ----- who owns what ---------------------------------------------------------------------------

  ghost predicate SameOwner(s: Sys, t: Sys, k: Owner) {
    (IsOwner(s, k) <==> IsOwner(t, k)) && (IsOwner(s, k) ==> OwnedBy(s, k) == OwnedBy(t, k))
  }

  lemma SameOwnersOwned(s: Sys, t: Sys)
    requires Owned(s) && t.held == s.held && forall k: Owner :: SameOwner(s, t, k)
    ensures Owned(t)
  {
    forall k: Owner ensures k in Claims(s) <==> k in Claims(t) { assert SameOwner(s, t, k); }
    forall k | k in Claims(s) ensures Claims(s)[k] == Claims(t)[k] { assert SameOwner(s, t, k); }
    assert Claims(s) == Claims(t);
  }

  /** Only owner `j` changes. */
  lemma OwnerAdded(s: Sys, t: Sys, j: Owner)
    requires Owned(s) && !IsOwner(s, j) && IsOwner(t, j) && forall k :: k != j ==> SameOwner(s, t, k)
    requires Cells(OwnedBy(t, j)) !! s.held && t.held == s.held + Cells(OwnedBy(t, j))
    ensures Owned(t)
  {
    CoverMore(Claims(s), s.held, j, OwnedBy(t, j));
    forall k: Owner ensures k in Claims(t) <==> k in Claims(s)[j := OwnedBy(t, j)] {
      assert k != j ==> SameOwner(s, t, k);
    }
    forall k | k in Claims(t) ensures Claims(t)[k] == (Claims(s)[j := OwnedBy(t, j)])[k] {
      assert k != j ==> SameOwner(s, t, k);
    }
    assert Claims(t) == Claims(s)[j := OwnedBy(t, j)];
  }

  lemma OwnerRemoved(s: Sys, t: Sys, j: Owner)
    requires Owned(s) && IsOwner(s, j) && !IsOwner(t, j) && forall k :: k != j ==> SameOwner(s, t, k)
    requires t.held == s.held - Cells(OwnedBy(s, j))
    ensures Owned(t)
  {
    CoverLess(Claims(s), s.held, j);
    forall k: Owner ensures k in Claims(t) <==> k in Claims(s) - {j} { assert k != j ==> SameOwner(s, t, k); }
    forall k | k in Claims(t) ensures Claims(t)[k] == (Claims(s) - {j})[k] { assert k != j ==> SameOwner(s, t, k); }
    assert Claims(t) == Claims(s) - {j};
  }

  lemma OwnerRenamed(s: Sys, t: Sys, i: Owner, j: Owner)
    requires Owned(s) && IsOwner(s, i) && !IsOwner(t, i) && !IsOwner(s, j) && IsOwner(t, j) && t.held == s.held
    requires OwnedBy(s, i) == OwnedBy(t, j) && forall k :: k != i && k != j ==> SameOwner(s, t, k)
    ensures Owned(t)
  {
    CoverRename(Claims(s), s.held, i, j);
    forall k: Owner ensures k in Claims(t) <==> k in (Claims(s) - {i})[j := OwnedBy(t, j)] {
      assert k != i && k != j ==> SameOwner(s, t, k);
    }
    forall k | k in Claims(t) ensures Claims(t)[k] == ((Claims(s) - {i})[j := OwnedBy(t, j)])[k] {
      assert k != i && k != j ==> SameOwner(s, t, k);
    }
    assert Claims(t) == (Claims(s) - {i})[j := OwnedBy(t, j)];
  }

  lemma OwnerShrunk(s: Sys, t: Sys, j: Owner, f: Extent)
    requires Owned(s) && IsOwner(s, j) && IsOwner(t, j) && forall k :: k != j ==> SameOwner(s, t, k)
    requires t.held == s.held - Cells(f) && f.vol == OwnedBy(s, j).vol
    requires OwnedBy(t, j) == OwnedBy(s, j).(hi := f.lo) && OwnedBy(s, j).lo <= f.lo <= f.hi == OwnedBy(s, j).hi
    ensures Owned(t)
  {
    CoverShrink(Claims(s), s.held, j, OwnedBy(t, j), f);
    forall k: Owner ensures k in Claims(t) <==> k in Claims(s)[j := OwnedBy(t, j)] {
      assert k != j ==> SameOwner(s, t, k);
    }
    forall k | k in Claims(t) ensures Claims(t)[k] == (Claims(s)[j := OwnedBy(t, j)])[k] {
      assert k != j ==> SameOwner(s, t, k);
    }
    assert Claims(t) == Claims(s)[j := OwnedBy(t, j)];
  }

  /** The step makes a new record. */
  predicate IsFirst(s: Sys, t: Step) { t.Join? && t.oid in s.busy && s.busy[t.oid].key !in s.hashes }

  /** No other owner is touched. */
  lemma ElsewhereOwned(s: Sys, t: Step, k: Owner)
    requires Enabled(s, t) && k != OfObject(Target(s, t)) && (IsCallStep(t) ==> k != OfCall(t.pid))
    requires IsFirst(s, t) ==> k != OfRecord(s.busy[t.oid].key)
    ensures SameOwner(s, Apply(s, t), k)
  {
    match k
    case OfObject(oid) => StepLocal(s, t, oid); SameObjectOwner(s, Apply(s, t), oid);
    case OfRecord(key) => SameRecordOwner(s, t, key);
    case OfCall(pid) => CallsLocal(s, t, pid);
  }

  lemma SameObjectOwner(s: Sys, u: Sys, oid: Oid)
    requires SameAt(s, u, oid)
    ensures SameOwner(s, u, OfObject(oid))
  {
  }

  lemma SameRecordOwner(s: Sys, t: Step, key: Key)
    requires Enabled(s, t) && (IsFirst(s, t) ==> key != s.busy[t.oid].key)
    ensures SameOwner(s, Apply(s, t), OfRecord(key))
  {
    StepGrows(s, t);
    assert key in s.hashes ==> RecordGrows(s, Apply(s, t), key);
    if !Counting(t) { UncountingSame(s, t); }
  }

  /** Steps that hand no extent over. */
  predicate Unmoving(s: Sys, t: Step) {
    !(t.Allot? || t.Fill? || t.AbortDoc? || t.AbortFree? || t.FreeOwn? || t.Discard? || t.Resize? || IsFirst(s, t))
  }

  lemma UnmovingOwned(s: Sys, t: Step)
    requires TablesOk(s) && Owned(s) && Enabled(s, t) && Polite(s, t) && Unmoving(s, t)
    ensures Owned(Apply(s, t))
  {
    var u := Apply(s, t);
    TargetUnmoved(s, t);
    CallUnmoved(s, t);
    forall k: Owner ensures SameOwner(s, u, k) {
      if k != OfObject(Target(s, t)) && !(IsCallStep(t) && k == OfCall(t.pid)) { ElsewhereOwned(s, t, k); }
    }
    SameOwnersOwned(s, u);
  }

  lemma TargetUnmoved(s: Sys, t: Step)
    requires TablesOk(s) && Enabled(s, t) && Polite(s, t) && Unmoving(s, t)
    ensures SameOwner(s, Apply(s, t), OfObject(Target(s, t)))
  {
    assert OidOk(s, Target(s, t));
    if IsCallStep(t) {
      assert t.pid in s.calls ==> CallOk(s, t.pid);
    } else {
      if t.Join? { assert !IsFirst(s, t); KnownRecord(s, t.oid); }
      HandlerUnmoved(s, t);
    }
  }

  lemma KnownRecord(s: Sys, oid: Oid)
    requires TablesOk(s) && oid in s.busy && s.busy[oid].key in s.hashes
    ensures 1 <= s.hashes[s.busy[oid].key].everCount
  {
    assert RecordOk(s.busy[oid].key, s.hashes[s.busy[oid].key]);
  }

  lemma HandlerUnmoved(s: Sys, t: Step)
    requires Enabled(s, t) && Polite(s, t) && Unmoving(s, t) && !IsCallStep(t) && OidOk(s, t.oid)
    requires t.Join? ==> s.busy[t.oid].key in s.hashes && 1 <= s.hashes[s.busy[t.oid].key].everCount
    ensures SameOwner(s, Apply(s, t), OfObject(t.oid))
  {
    if t.Write? || t.Mark? || t.Unlink? { ViewAgrees(s, t.oid); }
  }

  lemma CallUnmoved(s: Sys, t: Step)
    requires Enabled(s, t) && Unmoving(s, t)
    ensures IsCallStep(t) ==> SameOwner(s, Apply(s, t), OfCall(t.pid))
    ensures Apply(s, t).held == s.held
  {
    if IsCreation(t) { CreationUnmoved(s, t); } else if IsLink(t) { LinkUnmoved(s, t); } else { HandlerHeld(s, t); }
  }

  lemma CreationUnmoved(s: Sys, t: Step)
    requires Enabled(s, t) && Unmoving(s, t) && IsCreation(t)
    ensures SameOwner(s, ApplyCreation(s, t), OfCall(t.pid)) && ApplyCreation(s, t).held == s.held
  {
  }

  lemma LinkUnmoved(s: Sys, t: Step)
    requires Enabled(s, t) && IsLink(t)
    ensures SameOwner(s, ApplyLink(s, t), OfCall(t.pid)) && ApplyLink(s, t).held == s.held
  {
  }

  lemma HandlerHeld(s: Sys, t: Step)
    requires Enabled(s, t) && Unmoving(s, t) && !IsCallStep(t)
    ensures Apply(s, t).held == s.held
  {
  }

  /** A call gets storage, or gives it back; a completing or deleted object gives its own back. */
  lemma MovingOwned(s: Sys, t: Step)
    requires TablesOk(s) && Owned(s) && Enabled(s, t) && Polite(s, t)
             && (t.Allot? || t.AbortFree? || t.FreeOwn? || t.Discard?)
    ensures Owned(Apply(s, t))
  {
    var u, oid := Apply(s, t), Target(s, t);
    var k := if t.Allot? || t.AbortFree? then OfCall(t.pid) else OfObject(oid);
    assert OidOk(s, oid);
    forall j: Owner | j != k ensures SameOwner(s, u, j) {
      if j == OfObject(oid) { assert CallOk(s, t.pid); } else { ElsewhereOwned(s, t, j); }
    }
    if t.Allot? { OwnerAdded(s, u, k); } else { GivenBack(s, t, k); OwnerRemoved(s, u, k); }
  }

  lemma GivenBack(s: Sys, t: Step, k: Owner)
    requires Enabled(s, t) && Polite(s, t) && (t.AbortFree? || t.FreeOwn? || t.Discard?) && OidOk(s, Target(s, t))
    requires k == if t.AbortFree? then OfCall(t.pid) else OfObject(Target(s, t))
    ensures IsOwner(s, k) && !IsOwner(Apply(s, t), k) && Apply(s, t).held == s.held - Cells(OwnedBy(s, k))
  {
    if t.Discard? { ViewAgrees(s, t.oid); }
    if t.FreeOwn? { assert PhaseOk(s, t.oid); }
  }

  /** Storage passes from a call to its document or back, or from an object to its record. */
  lemma PassedOwned(s: Sys, t: Step)
    requires TablesOk(s) && Owned(s) && Enabled(s, t) && Polite(s, t) && (t.Fill? || t.AbortDoc? || IsFirst(s, t))
    ensures Owned(Apply(s, t))
  {
    var u, oid := Apply(s, t), Target(s, t);
    assert OidOk(s, oid);
    var i, j := if t.Fill? then OfCall(t.pid) else OfObject(oid),
                if t.Fill? then OfObject(oid) else if t.AbortDoc? then OfCall(t.pid) else OfRecord(s.busy[oid].key);
    if t.Join? { assert PhaseOk(s, oid); } else { assert CallOk(s, t.pid); }
    forall k: Owner | k != i && k != j ensures SameOwner(s, u, k) { ElsewhereOwned(s, t, k); }
    OwnerRenamed(s, u, i, j);
  }

  lemma ResizeOwned(s: Sys, oid: Oid, newSize: int)
    requires TablesOk(s) && Owned(s) && Enabled(s, Resize(oid, newSize)) && Polite(s, Resize(oid, newSize))
    ensures Owned(Apply(s, Resize(oid, newSize)))
  {
    assert OidOk(s, oid);
    ViewAgrees(s, oid);
    var u, d := Apply(s, Resize(oid, newSize)), s.objects[oid];
    forall k: Owner | k != OfObject(oid) ensures SameOwner(s, u, k) { ElsewhereOwned(s, Resize(oid, newSize), k); }
    ResizeSplitsExtent(d.place.beginIndex, d.place.beginOffset, d.size, newSize);
    AlignUp(d.size);
    AlignUp(newSize);
    if DataAlign(newSize) >= d.size {
      assert SameOwner(s, u, OfObject(oid));
      SameOwnersOwned(s, u);
    } else {
      OwnerShrunk(s, u, OfObject(oid), Rest(d.place, newSize, d.size));
    }
  }

  lemma OwnedKeep(s: Sys, t: Step)
    requires TablesOk(s) && Owned(s) && Enabled(s, t) && Polite(s, t)
    ensures Owned(Apply(s, t))
  {
    if Unmoving(s, t) { UnmovingOwned(s, t); }
    else if t.Resize? { ResizeOwned(s, t.oid, t.newSize); }
    else if t.Fill? || t.AbortDoc? || t.Join? { PassedOwned(s, t); }
    else { MovingOwned(s, t); }
  }

  // ----- who counts in a record ------------------------------------------------------------------

  /** Referrer `r` counts for the same record before and after. */
  ghost predicate SameRef(s: Sys, t: Sys, r: Referrer) {
    match r
    case ByObject(oid) => CountedKey(s, oid) == CountedKey(t, oid)
    case ByLink(pid) => LinkedKey(s, pid) == LinkedKey(t, pid)
    case ByDelete(oid) => DeletedKey(s, oid) == DeletedKey(t, oid)
  }

  ghost predicate SameCount(s: Sys, t: Sys, key: Key) {
    (key in s.hashes <==> key in t.hashes) && (key in s.hashes ==> t.hashes[key].refCount == s.hashes[key].refCount)
  }

  lemma SameRefsCounted(s: Sys, t: Sys)
    requires Counted(s) && (forall r :: SameRef(s, t, r)) && forall key :: SameCount(s, t, key)
    ensures Counted(t)
  {
    forall key | key in t.hashes ensures t.hashes[key].refCount == |Referrers(t, key)| {
      assert SameCount(s, t, key);
      forall r ensures r in Referrers(t, key) <==> r in Referrers(s, key) { assert SameRef(s, t, r); }
      assert Referrers(t, key) == Referrers(s, key);
    }
  }

  /** Some referrers of `key` leave and some join; nothing else changes. */
  ghost predicate RefsMove(s: Sys, t: Sys, key: Key, gone: set<Referrer>, come: set<Referrer>) {
    && (forall r :: r !in gone && r !in come ==> SameRef(s, t, r)) && (forall k :: k != key ==> SameCount(s, t, k))
    && (forall r :: r in gone ==> Left(s, t, key, r)) && (forall r :: r in come ==> r !in gone && Left(t, s, key, r))
  }

  /** `r` counted for `key`, and counts for nothing any more. */
  ghost predicate Left(s: Sys, t: Sys, key: Key, r: Referrer) {
    Refers(s, key, r) && forall k :: !Refers(t, k, r)
  }

  lemma OneKey(s: Sys, key: Key, k: Key, r: Referrer)
    requires Refers(s, key, r) && Refers(s, k, r)
    ensures key == k
  {
  }

  lemma RefsMoveCounted(s: Sys, t: Sys, key: Key, gone: set<Referrer>, come: set<Referrer>)
    requires Counted(s) && RefsMove(s, t, key, gone, come) && key in t.hashes
    requires t.hashes[key].refCount == |Referrers(s, key)| - |gone| + |come|
    ensures Counted(t)
  {
    forall k, r
      ensures Refers(t, k, r) <==> if r in gone then false else if r in come then k == key else Refers(s, k, r)
    {
      if r in gone { assert Left(s, t, key, r); }
      else if r in come { assert Left(t, s, key, r); if Refers(t, k, r) { OneKey(t, key, k, r); } }
      else { assert SameRef(s, t, r); }
    }
    assert Referrers(t, key) == Referrers(s, key) - gone + come;
    assert gone <= Referrers(s, key);
    assert come !! Referrers(s, key);
    forall k | k in t.hashes && k != key ensures t.hashes[k].refCount == |Referrers(t, k)| {
      assert SameCount(s, t, k);
      forall r ensures r in Referrers(t, k) <==> r in Referrers(s, k) {
        if r in gone && Refers(s, k, r) { OneKey(s, key, k, r); }
      }
      assert Referrers(t, k) == Referrers(s, k);
    }
  }

  /** Only the referrers a step works on change. */
  predicate Concerns(s: Sys, t: Step, r: Referrer) {
    match r
    case ByObject(oid) => oid == Target(s, t)
    case ByLink(pid) => IsCallStep(t) && pid == t.pid
    case ByDelete(oid) => oid == Target(s, t)
  }

  lemma ElsewhereCounted(s: Sys, t: Step, r: Referrer)
    requires Enabled(s, t) && !Concerns(s, t, r)
    ensures SameRef(s, Apply(s, t), r)
  {
    match r
    case ByObject(oid) => StepLocal(s, t, oid);
    case ByLink(pid) => CallsLocal(s, t, pid);
    case ByDelete(oid) => StepLocal(s, t, oid);
  }

  lemma UncountingCounted(s: Sys, t: Step)
    requires TablesOk(s) && Counted(s) && Enabled(s, t) && Polite(s, t) && !Counting(t)
    ensures Counted(Apply(s, t))
  {
    var u := Apply(s, t);
    UncountingSame(s, t);
    forall r ensures SameRef(s, u, r) {
      if Concerns(s, t, r) { TargetUncounted(s, t, r); } else { ElsewhereCounted(s, t, r); }
    }
    forall key ensures SameCount(s, u, key) { }
    SameRefsCounted(s, u);
  }

  lemma TargetUncounted(s: Sys, t: Step, r: Referrer)
    requires TablesOk(s) && Enabled(s, t) && Polite(s, t) && !Counting(t) && Concerns(s, t, r)
    ensures SameRef(s, Apply(s, t), r)
  {
    assert OidOk(s, Target(s, t));
    if IsCallStep(t) {
      assert t.pid in s.calls ==> CallOk(s, t.pid);
      CallUncounted(s, t, r);
    } else {
      HandlerUncounted(s, t, r);
    }
  }

  lemma CallUncounted(s: Sys, t: Step, r: Referrer)
    requires Enabled(s, t) && IsCallStep(t) && !Counting(t) && Concerns(s, t, r) && OidOk(s, Target(s, t))
    requires t.pid in s.calls ==> CallOk(s, t.pid)
    ensures SameRef(s, Apply(s, t), r)
  {
    if IsCreation(t) { CreationUncounted(s, t, r); } else { LinkUncounted(s, t, r); }
  }

  lemma CreationUncounted(s: Sys, t: Step, r: Referrer)
    requires Enabled(s, t) && IsCreation(t) && Concerns(s, t, r) && OidOk(s, Target(s, t))
    requires t.pid in s.calls ==> CallOk(s, t.pid)
    ensures SameRef(s, ApplyCreation(s, t), r)
  {
  }

  lemma LinkUncounted(s: Sys, t: Step, r: Referrer)
    requires Enabled(s, t) && t.InsertLink? && Concerns(s, t, r)
    ensures SameRef(s, ApplyLink(s, t), r)
  {
  }

  lemma HandlerUncounted(s: Sys, t: Step, r: Referrer)
    requires Enabled(s, t) && Polite(s, t) && !IsCallStep(t) && !Counting(t) && Concerns(s, t, r)
             && OidOk(s, Target(s, t))
    ensures SameRef(s, Apply(s, t), r)
  {
    if t.Write? || t.Resize? || t.Mark? || t.Discard? { ViewAgrees(s, t.oid); }
  }

  /** The record a counting step changes, and who leaves and joins it. */
  function CountKey(s: Sys, t: Step): Key
    requires Counting(t)
  {
    match t
    case Join(oid) => if oid in s.busy then s.busy[oid].key else Key("", 0, "")
    case BeginLink(_, _, key) => key
    case UndoLink(pid) => if pid in s.calls && s.calls[pid].Linking? then s.calls[pid].key else Key("", 0, "")
    case FillLink(pid) => if pid in s.calls && s.calls[pid].Linking? then s.calls[pid].key else Key("", 0, "")
    case Unlink(oid) => if oid in s.objects then KeyOf(s.objects[oid]) else Key("", 0, "")
    case Forget(oid) => if oid in s.busy then s.busy[oid].key else Key("", 0, "")
  }

  function Leaving(s: Sys, t: Step): set<Referrer> {
    if t.UndoLink? || t.FillLink? then {ByLink(t.pid)} else if t.Unlink? then {ByObject(t.oid)} else if t.Forget?
        then {ByDelete(t.oid)} else {}
  }

  function Coming(s: Sys, t: Step): set<Referrer> {
    if t.BeginLink? then {ByLink(t.pid)} else if t.FillLink? then {ByObject(Target(s, t))} else if t.Unlink?
        then {ByDelete(t.oid)}
    else if t.Join? then {ByObject(t.oid)} else {}
  }

  /** What a counting step makes of its referrers. */
  ghost predicate Moves(s: Sys, t: Step)
    requires Enabled(s, t) && Counting(t)
  {
    var u, key := Apply(s, t), CountKey(s, t);
    && (forall r :: r in Leaving(s, t) ==> Left(s, u, key, r))
    && (forall r :: r in Coming(s, t) ==> r !in Leaving(s, t) && Left(u, s, key, r))
  }

  lemma LinkMoves(s: Sys, t: Step)
    requires Enabled(s, t) && (t.BeginLink? || t.UndoLink? || t.FillLink?) && OidOk(s, Target(s, t))
    requires t.pid in s.calls ==> CallOk(s, t.pid)
    ensures Moves(s, t)
  {
  }

  lemma PhaseMoves(s: Sys, t: Step)
    requires Enabled(s, t) && Polite(s, t) && (t.Join? || t.Unlink? || t.Forget?) && OidOk(s, t.oid)
    ensures Moves(s, t)
  {
    if t.Unlink? { UnlinkMoves(s, t.oid); }
  }

  lemma UnlinkMoves(s: Sys, oid: Oid)
    requires Enabled(s, Unlink(oid)) && Polite(s, Unlink(oid)) && OidOk(s, oid)
    ensures Moves(s, Unlink(oid))
  {
    UnlinkCounts(s, oid);
    var key := KeyOf(s.objects[oid]);
    assert Left(s, Apply(s, Unlink(oid)), key, ByObject(oid));
    assert Left(Apply(s, Unlink(oid)), s, key, ByDelete(oid));
  }

  lemma UnlinkCounts(s: Sys, oid: Oid)
    requires Enabled(s, Unlink(oid)) && Polite(s, Unlink(oid)) && OidOk(s, oid)
    ensures oid in s.objects
    ensures var u, key := Apply(s, Unlink(oid)), Some(KeyOf(s.objects[oid]));
            && CountedKey(s, oid) == key && CountedKey(u, oid) == None
            && DeletedKey(s, oid) == None && DeletedKey(u, oid) == key
  {
    ViewAgrees(s, oid);
  }

  lemma ConcernedMove(s: Sys, t: Step)
    requires TablesOk(s) && Enabled(s, t) && Polite(s, t) && Counting(t)
    ensures Moves(s, t)
  {
    assert OidOk(s, Target(s, t));
    if t.Join? || t.Unlink? || t.Forget? { PhaseMoves(s, t); } else { LinkMoves(s, t); }
  }

  lemma ConcernedStay(s: Sys, t: Step, r: Referrer)
    requires TablesOk(s) && Enabled(s, t) && Polite(s, t) && Counting(t)
    requires Concerns(s, t, r) && r !in Leaving(s, t) && r !in Coming(s, t)
    ensures SameRef(s, Apply(s, t), r)
  {
    var oid := Target(s, t);
    assert OidOk(s, oid);
    if t.UndoLink? || t.FillLink? { assert CallOk(s, t.pid); }
  }

  lemma CountMoves(s: Sys, t: Step)
    requires TablesOk(s) && Enabled(s, t) && Polite(s, t) && Counting(t)
    ensures var u, key := Apply(s, t), CountKey(s, t);
            && key in u.hashes
            && (if key in s.hashes
               then u.hashes[key].refCount == s.hashes[key].refCount - |Leaving(s, t)| + |Coming(s, t)|
                else t.Join? && u.hashes[key].refCount == 1)
  {
    var oid := Target(s, t);
    assert OidOk(s, oid);
    if t.Unlink? { ViewAgrees(s, oid); }
  }

  lemma OtherCounts(s: Sys, t: Step, k: Key)
    requires Enabled(s, t) && Counting(t) && k != CountKey(s, t)
    ensures SameCount(s, Apply(s, t), k)
  {
  }

  /** Nothing refers to a record that does not exist. */
  lemma RefersToRecord(s: Sys, key: Key, r: Referrer)
    requires TablesOk(s) && Refers(s, key, r)
    ensures key in s.hashes
  {
    match r
    case ByObject(oid) => assert OidOk(s, oid);
    case ByLink(pid) => assert CallOk(s, pid);
    case ByDelete(oid) => assert OidOk(s, oid);
  }

  lemma CountingCounted(s: Sys, t: Step)
    requires TablesOk(s) && Counted(s) && Enabled(s, t) && Polite(s, t) && Counting(t)
    ensures Counted(Apply(s, t))
  {
    var u, key := Apply(s, t), CountKey(s, t);
    ConcernedMove(s, t);
    CountMoves(s, t);
    forall k | k != key ensures SameCount(s, u, k) { OtherCounts(s, t, k); }
    forall r | r !in Leaving(s, t) && r !in Coming(s, t) ensures SameRef(s, u, r) {
      if Concerns(s, t, r) { ConcernedStay(s, t, r); } else { ElsewhereCounted(s, t, r); }
    }
    if key !in s.hashes { NoReferrers(s, key); }
    RefsMoveCounted(s, u, key, Leaving(s, t), Coming(s, t));
  }

  lemma NoReferrers(s: Sys, key: Key)
    requires TablesOk(s) && key !in s.hashes
    ensures Referrers(s, key) == {}
  {
    forall r ensures r !in Referrers(s, key) { if Refers(s, key, r) { RefersToRecord(s, key, r); } }
  }

  lemma StepKeeps(s: Sys, t: Step)
    requires Inv(s) && Enabled(s, t) && Polite(s, t)
    ensures Inv(Apply(s, t))
  {
    TablesKeep(s, t);
    OwnedKeep(s, t);
    if Counting(t) { CountingCounted(s, t); } else { UncountingCounted(s, t); }
  }
}
