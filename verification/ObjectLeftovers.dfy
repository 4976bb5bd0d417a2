/**
 What deletions leave behind or take too much: the second delete of a refused creation, the cached
 entry of a failed one, and the hash node of a deleted object. Each with a run that shows it, and
 exactly when it happens.
 */
module ObjectLeftovers {
  import opened Layout
  import opened Ownership
  import opened HexCodec
  import opened ObjectSpec
  import opened ObjectProof
  import opened ObjectRuns
  import opened ObjectNodes
  import opened ObjectContents
  import opened ObjectRaces
  import S = StorageSpec

  // ----- the second delete of a refused creation -------------------------------------------------------

  /** What the code can do, whatever clients do. */
  ghost predicate CodeRun(states: seq<Sys>, steps: seq<Step>) {
    && |states| == |steps| + 1
    && forall i :: 0 <= i < |steps| ==> Enabled(states[i], steps[i]) && states[i + 1] == Apply(states[i], steps[i])
  }

  /** The step inserts a document with the oid. */
  predicate Inserts(s: Sys, t: Step, oid: Oid) {
    (t.BeginCreate? && t.oid == oid) || (t.InsertLink? && OidOfCall(s, t.pid) == oid)
  }

  /** The step deletes the document with the oid, if there is one. */
  predicate Removes(s: Sys, t: Step, oid: Oid) {
    (t.Refuse? || t.Withdraw? || t.AbortDoc? || t.Unlink?) && Target(s, t) == oid
  }

  lemma TakenStep(s: Sys, t: Step, oid: Oid)
    requires Enabled(s, t)
    ensures Taken(Apply(s, t), oid) <==> Inserts(s, t, oid) || (Taken(s, oid) && !Removes(s, t, oid))
  {
    if oid != Target(s, t) {
      StepLocal(s, t, oid);
    } else if IsCallStep(t) {
      CallTaken(s, t);
    } else {
      HandlerTaken(s, t);
    }
  }

  lemma CallTaken(s: Sys, t: Step)
    requires Enabled(s, t) && IsCallStep(t)
    ensures var oid := Target(s, t);
            Taken(Apply(s, t), oid) <==> Inserts(s, t, oid) || (Taken(s, oid) && !Removes(s, t, oid))
  {
  }

  lemma HandlerTaken(s: Sys, t: Step)
    requires Enabled(s, t) && !IsCallStep(t)
    ensures Taken(Apply(s, t), t.oid) <==> Taken(s, t.oid) && !t.Unlink?
  {
  }

  /** Step `k` inserts a document with the oid that is still there before step `j`. */
  ghost predicate InsertedAt(states: seq<Sys>, steps: seq<Step>, k: nat, j: nat, oid: Oid)
    requires j <= |steps| < |states|
  {
    && k < j && Inserts(states[k], steps[k], oid)
    && forall m :: k < m < j ==> !Removes(states[m], steps[m], oid)
  }

  /** The oid has been taken again after step `i` and is still taken before step `j`. */
  ghost predicate TakenSince(states: seq<Sys>, steps: seq<Step>, i: nat, j: nat, oid: Oid)
    requires j <= |steps| < |states|
  {
    exists k: nat :: i < k && InsertedAt(states, steps, k, j, oid)
  }

  lemma {:induction false} TakenAgainIff(states: seq<Sys>, steps: seq<Step>, i: nat, j: nat, oid: Oid)
    requires CodeRun(states, steps) && i < j < |states| && !Taken(states[i + 1], oid)
    ensures Taken(states[j], oid) <==> TakenSince(states, steps, i, j, oid)
  {
    if j == i + 1 {
      forall k: nat | i < k ensures !InsertedAt(states, steps, k, j, oid) { }
    } else {
      TakenAgainIff(states, steps, i, j - 1, oid);
      TakenStep(states[j - 1], steps[j - 1], oid);
      SinceStep(states, steps, i, j - 1, oid);
    }
  }

  lemma SinceStep(states: seq<Sys>, steps: seq<Step>, i: nat, j: nat, oid: Oid)
    requires i < j < |steps| < |states|
    ensures TakenSince(states, steps, i, j + 1, oid) <==>
              || Inserts(states[j], steps[j], oid)
              || (TakenSince(states, steps, i, j, oid) && !Removes(states[j], steps[j], oid))
  {
    if Inserts(states[j], steps[j], oid) { assert InsertedAt(states, steps, j, j + 1, oid); }
    if TakenSince(states, steps, i, j, oid) && !Removes(states[j], steps[j], oid) {
      var k: nat :| i < k && InsertedAt(states, steps, k, j, oid);
      assert InsertedAt(states, steps, k, j + 1, oid);
    }
    if TakenSince(states, steps, i, j + 1, oid) && !Inserts(states[j], steps[j], oid) {
      var k: nat :| i < k && InsertedAt(states, steps, k, j + 1, oid);
      assert InsertedAt(states, steps, k, j, oid);
    }
  }

  /** A refused creation waits for its second delete. */
  lemma RefusedStep(s: Sys, t: Step, pid: nat)
    requires Enabled(s, t) && pid in s.calls && s.calls[pid].Creating? && s.calls[pid].stage.Refused?
             && t != Withdraw(pid)
    ensures pid in Apply(s, t).calls && Apply(s, t).calls[pid] == s.calls[pid]
  {
    CallsLocal(s, t, pid);
  }

  lemma {:induction false} StaysRefused(states: seq<Sys>, steps: seq<Step>, i: nat, j: nat, pid: nat)
    requires CodeRun(states, steps) && i < j < |states| && steps[i] == Refuse(pid)
    requires forall k :: i < k < j ==> steps[k] != Withdraw(pid)
    ensures pid in states[j].calls && states[j].calls[pid] == states[i].calls[pid].(stage := Refused)
  {
    if i + 1 < j {
      StaysRefused(states, steps, i, j - 1, pid);
      RefusedStep(states[j - 1], steps[j - 1], pid);
    }
  }

  /** The second delete removes a document exactly when the oid has been taken again since the first. */
  lemma SecondDeleteIff(states: seq<Sys>, steps: seq<Step>, i: nat, j: nat, pid: nat)
    requires CodeRun(states, steps) && i < j < |steps| && steps[i] == Refuse(pid) && steps[j] == Withdraw(pid)
    requires forall k :: i < k < j ==> steps[k] != Withdraw(pid)
    ensures var oid := states[i].calls[pid].oid;
            && !Taken(states[j + 1], oid)
            && (Taken(states[j], oid) <==> TakenSince(states, steps, i, j, oid))
  {
    var oid := states[i].calls[pid].oid;
    StaysRefused(states, steps, i, j, pid);
    TakenStep(states[i], steps[i], oid);
    TakenAgainIff(states, steps, i, j, oid);
    TakenStep(states[j], steps[j], oid);
  }

  /** ... which careful clients do not let happen. */
  lemma PoliteSecondDelete(states: seq<Sys>, steps: seq<Step>, i: nat, pid: nat)
    requires IsRun(states, steps) && Inv(states[0]) && i < |states| && pid in states[i].calls
    requires states[i].calls[pid].Creating? && states[i].calls[pid].stage.Refused?
    ensures !Taken(states[i], states[i].calls[pid].oid)
  {
    assert TablesOk(states[i]) by { RunKeeps(states, steps, i); }
    assert CallOk(states[i], pid);
  }

  function LinkSteps(pid: nat, oid: Oid, key: Key): seq<Step>
  {
    [BeginLink(pid, oid, key), InsertLink(pid), FillLink(pid)]
  }

  lemma LinkedAt(s: Sys, pid: nat, oid: Oid, key: Key) returns (t: Sys)
    requires pid !in s.calls && key in s.hashes && !Taken(s, oid)
    ensures Reaches(s, LinkSteps(pid, oid, key), t)
    ensures t == s.(objects := s.objects[oid := LinkedDoc(s.hashes[key], key)],
                    hashes := s.hashes[key := AddRef(s.hashes[key], 1, 1)], making := t.making)
  {
    var s1 := Apply(s, BeginLink(pid, oid, key));
    var s2 := Apply(s1, InsertLink(pid));
    t := FilledLink(s2, pid, oid, key);
    ReachesThree(s, BeginLink(pid, oid, key), s1, InsertLink(pid), s2, FillLink(pid));
    Restored(s.calls, pid, Linking(oid, key, false), Linking(oid, key, true));
    assert s.bare + {oid} - {oid} == s.bare;
  }

  lemma FilledLink(s: Sys, pid: nat, oid: Oid, key: Key) returns (t: Sys)
    requires pid in s.calls && s.calls[pid] == Linking(oid, key, true) && key in s.hashes && oid in s.bare
    ensures Enabled(s, FillLink(pid)) && t == Apply(s, FillLink(pid))
    ensures t == s.(objects := s.objects[oid := LinkedDoc(s.hashes[key], key)], bare := s.bare - {oid},
                    making := s.making - {oid}, calls := s.calls - {pid})
  {
    t := Apply(s, FillLink(pid));
  }

  lemma Restored(calls: map<nat, Call>, pid: nat, a: Call, b: Call)
    requires pid !in calls
    ensures calls[pid := a][pid := b] - {pid} == calls && calls[pid := a] - {pid} == calls
  {
  }

  lemma RefusedOnce(s: Sys, pid: nat, oid: Oid, size: int) returns (t: Sys)
    requires pid !in s.calls && !Taken(s, oid) && SizeOk(size)
    ensures Reaches(s, [BeginCreate(pid, oid, size), Refuse(pid)], t)
    ensures t == s.(calls := s.calls[pid := Creating(oid, size, Refused)], making := t.making)
  {
    var s1 := Apply(s, BeginCreate(pid, oid, size));
    t := Apply(s1, Refuse(pid));
    assert [BeginCreate(pid, oid, size), Refuse(pid)][1..] == [Refuse(pid)];
    assert Reaches(s1, [Refuse(pid)], t);
    assert s.bare + {oid} - {oid} == s.bare && s.objects - {oid} == s.objects;
    assert s.calls[pid := Creating(oid, size, Reserved)][pid := Creating(oid, size, Refused)]
        == s.calls[pid := Creating(oid, size, Refused)];
  }

  /** While a refused creation is between its deletes, another client links the oid to a record: its
      object is complete, and then gone, and the record counts one object too many. */
  lemma SecondDeleteRemovesLink(s: Sys, pid: nat, oid: Oid, size: int, q: nat, key: Key) returns (t: Sys)
    requires Inv(s) && pid !in s.calls && q !in s.calls && pid != q && SizeOk(size) && key in s.hashes
    requires !Taken(s, oid) && oid !in s.busy && oid !in s.cache
    ensures Reaches(s, [BeginCreate(pid, oid, size), Refuse(pid)] + LinkSteps(q, oid, key), t)
    ensures Finished(t, oid) && Enabled(t, Withdraw(pid))
    ensures Read(t, oid, 1, 0).ReadData?
    ensures var u := Apply(t, Withdraw(pid));
            && Read(u, oid, 1, 0).ReadNotFound? && key in u.hashes
            && u.hashes[key].refCount == |Referrers(u, key)| + 1
  {
    var s1 := RefusedOnce(s, pid, oid, size);
    t := LinkedAt(s1, q, oid, key);
    ReachesOn(s, [BeginCreate(pid, oid, size), Refuse(pid)], s1, LinkSteps(q, oid, key), t);
    assert RecordOk(key, s.hashes[key]);
    Withdrawn(s, t, pid, oid, size, key);
  }

  lemma Withdrawn(s: Sys, t: Sys, pid: nat, oid: Oid, size: int, key: Key)
    requires Counted(s) && key in s.hashes && pid !in s.calls && !Taken(s, oid) && 0 < size && oid !in s.cache
    requires t == s.(objects := s.objects[oid := LinkedDoc(s.hashes[key], key)],
                     hashes := s.hashes[key := AddRef(s.hashes[key], 1, 1)],
                     calls := s.calls[pid := Creating(oid, size, Refused)], making := t.making)
    ensures var u := Apply(t, Withdraw(pid));
            && Read(u, oid, 1, 0).ReadNotFound? && key in u.hashes
            && u.hashes[key].refCount == |Referrers(u, key)| + 1
  {
    var u := Apply(t, Withdraw(pid));
    assert u.objects == s.objects && u.calls == s.calls && u.busy == s.busy;
    forall r ensures r in Referrers(u, key) <==> r in Referrers(s, key) { assert SameRef(s, u, r); }
    assert Referrers(u, key) == Referrers(s, key);
  }

  // ----- the cached entry of a failed creation -----------------------------------------------------------

  function FailSteps(pid: nat, oid: Oid, size: int, p: Place): seq<Step>
  {
    CreateSteps(pid, oid, size, p) + [Enter(pid), AbortDoc(pid), AbortFree(pid)]
  }

  /** Linking an oid whose creation failed makes a complete object; its handlers find it incomplete,
      and take writes for it, exactly as long as the entry of the failed creation is cached. */
  lemma StaleLinkOpensIff(s: Sys, pid: nat, oid: Oid, key: Key) returns (t: Sys)
    requires Inv(s) && oid in s.stale && pid !in s.calls && key in s.hashes && !Taken(s, oid)
    ensures Reaches(s, LinkSteps(pid, oid, key), t) && Finished(t, oid)
    ensures Open(t, oid) <==> oid in s.cache
  {
    assert OidOk(s, oid);
    t := LinkedAt(s, pid, oid, key);
  }

  /** The state a failed creation leaves: as before, but for the cached entry. */
  lemma FailedAt(s: Sys, pid: nat, oid: Oid, size: int, p: Place) returns (t: Sys)
    requires pid !in s.calls && !Taken(s, oid) && oid !in s.busy
             && SizeOk(size) && PlaceOk(p) && Cells(ExtentOf(p, size)) !! s.held
    ensures Reaches(s, FailSteps(pid, oid, size, p), t)
    ensures t == s.(cache := s.cache[oid := NewEntry(p, size)], stale := s.stale + {oid}, making := t.making)
  {
    var s1 := CreatedAt(s, pid, oid, size, p);
    t := DroppedAt(s1, pid, oid, size, p);
    ReachesOn(s, CreateSteps(pid, oid, size, p), s1, [Enter(pid), AbortDoc(pid), AbortFree(pid)], t);
    assert s.objects[oid := NewDoc(p, size)] - {oid} == s.objects;
    assert s.stale - {oid} + {oid} == s.stale + {oid};
    Restored(s.calls, pid, Creating(oid, size, Filled(p)), Creating(oid, size, Filled(p)));
    var e := Cells(ExtentOf(p, size));
    assert s.held + e - e == s.held;
  }

  lemma DroppedAt(s: Sys, pid: nat, oid: Oid, size: int, p: Place) returns (t: Sys)
    requires Enabled(s, Enter(pid)) && s.calls[pid] == Creating(oid, size, Filled(p)) && oid !in s.bare
    ensures Reaches(s, [Enter(pid), AbortDoc(pid), AbortFree(pid)], t)
    ensures t == s.(objects := s.objects - {oid}, cache := s.cache[oid := NewEntry(p, size)],
                    stale := s.stale - {oid} + {oid}, making := s.making - {oid}, calls := s.calls - {pid},
                    held := s.held - Cells(ExtentOf(p, size)))
  {
    Dropping(s, pid, oid, size, p);
    var s2 := Apply(s, Enter(pid));
    var s3 := Apply(s2, AbortDoc(pid));
    t := Apply(s3, AbortFree(pid));
    ReachesThree(s, Enter(pid), s2, AbortDoc(pid), s3, AbortFree(pid));
  }

  lemma Dropping(s: Sys, pid: nat, oid: Oid, size: int, p: Place)
    requires Enabled(s, Enter(pid)) && s.calls[pid] == Creating(oid, size, Filled(p)) && oid !in s.bare
    ensures var s2 := Apply(s, Enter(pid));
            Enabled(s2, AbortDoc(pid)) && Enabled(Apply(s2, AbortDoc(pid)), AbortFree(pid))
            && Apply(Apply(s2, AbortDoc(pid)), AbortFree(pid))
               == s.(objects := s.objects - {oid}, cache := s.cache[oid := NewEntry(p, size)],
                     stale := s.stale - {oid} + {oid}, making := s.making - {oid}, calls := s.calls - {pid},
                     held := s.held - Cells(ExtentOf(p, size)))
  {
    var a, b := Creating(oid, size, Entered(p)), Creating(oid, size, Dropped(p));
    assert s.calls[pid := a][pid := b] - {pid} == s.calls - {pid};
    assert s.bare - {oid} == s.bare;
  }

  function StaleSteps(oid: Oid, size: int, p: Place, other: Oid, key: Key): seq<Step> {
    FailSteps(0, oid, size, p) + CreateSteps(0, other, size, p) + LinkSteps(1, oid, key)
  }

  /** What a creation that fails, another one given the same storage, and a link lead to. */
  lemma StaleRun(s: Sys, oid: Oid, size: int, p: Place, other: Oid, key: Key) returns (t: Sys)
    requires s.calls == map[] && key in s.hashes && oid != other && !Taken(s, other) && !Taken(s, oid)
    requires oid !in s.busy && SizeOk(size) && PlaceOk(p) && Cells(ExtentOf(p, size)) !! s.held
    ensures Reaches(s, StaleSteps(oid, size, p, other, key), t)
    ensures t.objects == s.objects[other := NewDoc(p, size)][oid := LinkedDoc(s.hashes[key], key)]
    ensures t.cache == s.cache[oid := NewEntry(p, size)] && t.bytes == s.bytes && t.busy == s.busy
  {
    var s1 := FailedAt(s, 0, oid, size, p);
    var s2 := CreatedAt(s1, 0, other, size, p);
    ReachesOn(s, FailSteps(0, oid, size, p), s1, CreateSteps(0, other, size, p), s2);
    t := LinkedAt(s2, 1, oid, key);
    ReachesOn(s, FailSteps(0, oid, size, p) + CreateSteps(0, other, size, p), s2, LinkSteps(1, oid, key), t);
  }

  /** The storage of a failed creation goes to another object at once; a write to the linked oid then
      changes that object. */
  lemma StaleLinkOverwrites(s: Sys, oid: Oid, size: int, p: Place, other: Oid, key: Key, b: Byte) returns (t: Sys)
    requires s.calls == map[] && key in s.hashes && oid != other && !Taken(s, other) && !Taken(s, oid)
    requires oid !in s.busy && SizeOk(size) && PlaceOk(p) && Cells(ExtentOf(p, size)) !! s.held
    requires s.bytes((p.vol, Pos(p))) != b
    ensures Reaches(s, StaleSteps(oid, size, p, other, key), t)
    ensures Finished(t, oid) && other in t.objects && t.objects[other] == NewDoc(p, size)
    ensures Enabled(t, Write(oid, 0, [b]))
    ensures Content(Apply(t, Write(oid, 0, [b])).bytes, p, size) != Content(t.bytes, p, size)
  {
    t := StaleRun(s, oid, size, p, other, key);
    DeadWrite(t, oid, b);
  }

  // ----- the hash node of a deleted object ---------------------------------------------------------------

  /** Everything a creation does that succeeds. */
  function WholeCreation(pid: nat, oid: Oid, size: int, p: Place): seq<Step>
  {
    CreateSteps(pid, oid, size, p) + [Enter(pid), Return(pid)]
  }

  lemma WhollyCreated(s: Sys, pid: nat, oid: Oid, size: int, p: Place) returns (t: Sys)
    requires pid !in s.calls && !Taken(s, oid) && oid !in s.busy
             && SizeOk(size) && PlaceOk(p) && Cells(ExtentOf(p, size)) !! s.held
    ensures Reaches(s, WholeCreation(pid, oid, size, p), t)
    ensures t == s.(objects := s.objects[oid := NewDoc(p, size)], cache := s.cache[oid := NewEntry(p, size)],
                    stale := s.stale - {oid}, making := s.making - {oid}, held := s.held + Cells(ExtentOf(p, size)))
  {
    var s1 := CreatedAt(s, pid, oid, size, p);
    t := ReturnedAt(s1, pid, oid, size, p);
    ReachesOn(s, CreateSteps(pid, oid, size, p), s1, [Enter(pid), Return(pid)], t);
    Restored(s.calls, pid, Creating(oid, size, Filled(p)), Creating(oid, size, Filled(p)));
    Unmade(s.making, oid, Creation(pid));
  }

  lemma Unmade(making: map<Oid, Maker>, oid: Oid, m: Maker)
    ensures making[oid := m] - {oid} == making - {oid}
  {
  }

  lemma ReturnedAt(s: Sys, pid: nat, oid: Oid, size: int, p: Place) returns (t: Sys)
    requires Enabled(s, Enter(pid)) && s.calls[pid] == Creating(oid, size, Filled(p))
    ensures Reaches(s, [Enter(pid), Return(pid)], t)
    ensures t == s.(cache := s.cache[oid := NewEntry(p, size)], stale := s.stale - {oid},
                    making := s.making - {oid}, calls := s.calls - {pid})
  {
    var s2 := Apply(s, Enter(pid));
    t := Apply(s2, Return(pid));
    assert Reaches(s2, [Return(pid)], t);
    assert [Enter(pid), Return(pid)][1..] == [Return(pid)];
    assert s.calls[pid := Creating(oid, size, Entered(p))] - {pid} == s.calls - {pid};
  }

  /** Written whole and at once, an object contains what was written, but its hash node is as it was
      if it had hashed anything before. */
  lemma WrittenOver(s: Sys, oid: Oid, y: seq<Byte>) returns (u: Sys)
    requires TablesOk(s) && Open(s, oid) && Usable(s, oid) && |y| == View(s, oid).size
    requires NodeAt(s.nodes, View(s, oid).place).hashed > 0
    ensures Enabled(s, Write(oid, 0, y)) && u == Apply(s, Write(oid, 0, y)) && u.digest == s.digest
    ensures Open(u, oid) && oid in u.objects && Usable(u, oid)
    ensures var c, d := View(s, oid), View(u, oid);
            && d.place == c.place && d.size == c.size && d.flags == c.flags && PlaceOk(c.place) && SizeOk(c.size)
            && Content(u.bytes, c.place, |y|) == y && NodeAt(u.nodes, c.place) == NodeAt(s.nodes, c.place)
  {
    HandlerView(s, oid);
    var c := View(s, oid);
    AddressIs(c.place, 0);
    WholeIs(s, oid, y);
    u := Apply(s, Write(oid, 0, y));
    OverlaidContent(s.bytes, c.place, c.size, 0, y, Pos(Address(c.place, 0)));
    assert Clipped(c.size, 0, y) == y && Overlay(Content(s.bytes, c.place, c.size), 0, y) == y;
    WrittenUsable(s, oid, y);
  }

  lemma WrittenUsable(s: Sys, oid: Oid, y: seq<Byte>)
    requires Enabled(s, Write(oid, 0, y)) && Usable(s, oid)
    ensures Usable(Apply(s, Write(oid, 0, y)), oid) && Apply(s, Write(oid, 0, y)).digest == s.digest
  {
  }

  /** Such an object is digested right if and only if whatever its storage's hash node had been fed
      is the first bytes written. */
  lemma LeftoverSpoilsIff(s: Sys, oid: Oid, y: seq<Byte>)
    requires TablesOk(s) && Open(s, oid) && Usable(s, oid) && View(s, oid).flags != 1 && |y| == View(s, oid).size
    requires var n := NodeAt(s.nodes, View(s, oid).place);
             |n.fed| == n.hashed > 0 && (n.hashed < |y| ==> S.DigestsWhole(n, Context(View(s, oid))))
    ensures Enabled(s, Write(oid, 0, y))
    ensures var u, n := Apply(s, Write(oid, 0, y)), NodeAt(s.nodes, View(s, oid).place);
            Open(u, oid) && (NodeInput(u.bytes, u.nodes, View(u, oid)) == y
                             <==> n.hashed <= |y| && n.fed == y[..n.hashed])
  {
    var u := WrittenOver(s, oid, y);
    InputOfWhole(u.bytes, u.nodes, View(u, oid), y);
  }

  lemma InputOfWhole(bytes: Cell -> Byte, nodes: map<Place, S.HashNode>, c: Cached, y: seq<Byte>)
    requires PlaceOk(c.place) && SizeOk(c.size) && c.flags != 1 && Content(bytes, c.place, c.size) == y
    requires var n := NodeAt(nodes, c.place);
             |n.fed| == n.hashed && (n.hashed < |y| ==> S.DigestsWhole(n, Context(c)))
    ensures var n := NodeAt(nodes, c.place);
            NodeInput(bytes, nodes, c) == y <==> n.hashed <= |y| && n.fed == y[..n.hashed]
  {
    var n := NodeAt(nodes, c.place);
    if n.hashed <= |y| {
      InputIsContentIff(bytes, nodes, c);
      assert Content(bytes, c.place, n.hashed) == y[..n.hashed];
    }
  }

  /** The clients are careful in every step. */
  ghost predicate Politely(s: Sys, steps: seq<Step>)
    decreases |steps|
  {
    steps == [] || (Enabled(s, steps[0]) && Polite(s, steps[0]) && Politely(Apply(s, steps[0]), steps[1..]))
  }

  lemma {:induction false} PolitelyOn(s: Sys, a: seq<Step>, t: Sys, b: seq<Step>)
    requires Reaches(s, a, t) && Politely(s, a) && Politely(t, b)
    ensures Politely(s, a + b)
    decreases |a|
  {
    if a == [] {
      assert a + b == b;
    } else {
      PolitelyOn(Apply(s, a[0]), a[1..], t, b);
      assert (a + b)[1..] == a[1..] + b;
    }
  }

  /** A creation is polite if it begins politely. */
  lemma CreatesPolitely(s: Sys, pid: nat, oid: Oid, size: int, p: Place, t: Sys)
    requires Reaches(s, WholeCreation(pid, oid, size, p), t) && Polite(s, BeginCreate(pid, oid, size))
    ensures Politely(s, WholeCreation(pid, oid, size, p))
  {
    var rest := [Allot(pid, p), Fill(pid), Enter(pid), Return(pid)];
    assert WholeCreation(pid, oid, size, p)[1..] == rest;
    OwnSteps(Apply(s, BeginCreate(pid, oid, size)), rest, t);
  }

  lemma {:induction false} OwnSteps(s: Sys, steps: seq<Step>, t: Sys)
    requires Reaches(s, steps, t)
    requires forall i :: 0 <= i < |steps| ==> IsCreation(steps[i]) && !steps[i].BeginCreate?
    ensures Politely(s, steps)
    decreases |steps|
  {
    if steps != [] { OwnSteps(Apply(s, steps[0]), steps[1..], t); }
  }

  function LeftoverSteps(oid: Oid, pid: nat, other: Oid, y: seq<Byte>, p: Place): seq<Step> {
    [Discard(oid)] + WholeCreation(pid, other, |y|, p) + [Write(other, 0, y), Mark(other)]
  }

  /** Written whole, an object on storage whose node has hashed `x` is recorded under the hash of `x`. */
  lemma MarkedByLeftover(s: Sys, oid: Oid, x: seq<Byte>, y: seq<Byte>) returns (t: Sys)
    requires TablesOk(s) && Open(s, oid) && Usable(s, oid) && View(s, oid).flags != 1 && |y| == View(s, oid).size
    requires |x| == |y| && NodeAt(s.nodes, View(s, oid).place) == S.HashNode(x, |x|)
    ensures Reaches(s, [Write(oid, 0, y), Mark(oid)], t) && Politely(s, [Write(oid, 0, y), Mark(oid)])
    ensures oid in t.busy && t.busy[oid].Marked? && t.busy[oid].key.hash == s.digest(x)
    ensures Content(t.bytes, t.busy[oid].entry.place, |y|) == y
  {
    HandlerView(s, oid);
    var u := WrittenOver(s, oid, y);
    InputOfWhole(u.bytes, u.nodes, View(u, oid), y);
    assert NodeInput(u.bytes, u.nodes, View(u, oid)) == x;
    t := Apply(u, Mark(oid));
    TwoSteps(s, Write(oid, 0, y), u, Mark(oid), t);
    MarkIs(u, oid);
  }

  lemma TwoSteps(s: Sys, a: Step, u: Sys, b: Step, t: Sys)
    requires Enabled(s, a) && Polite(s, a) && u == Apply(s, a) && Enabled(u, b) && Polite(u, b) && t == Apply(u, b)
    ensures Reaches(s, [a, b], t) && Politely(s, [a, b])
  {
    assert [a, b][1..] == [b];
    assert Reaches(u, [b], t) && Politely(u, [b]);
  }

  /** An object written whole with `x` is deleted before completion, and its storage goes to another
      object. Written whole with other bytes `y` and completed, that one is recorded under the hash
      of `x`, although every client was careful and rewrote nothing. */
  lemma LeftoverHash(s: Sys, oid: Oid, x: seq<Byte>, pid: nat, other: Oid, y: seq<Byte>) returns (t: Sys)
    requires Inv(s) && HashedWhole(s, oid, x, x) && Usable(s, oid) && |y| == |x|
    requires pid !in s.calls && !Taken(s, other) && other !in s.busy && Polite(s, BeginCreate(pid, other, |y|))
    ensures var steps := LeftoverSteps(oid, pid, other, y, View(s, oid).place);
            Reaches(s, steps, t) && Politely(s, steps)
    ensures other in t.busy && t.busy[other].Marked? && t.busy[other].key.hash == s.digest(x)
    ensures Content(t.bytes, t.busy[other].entry.place, |y|) == y
  {
    HandlerView(s, oid);
    var p := View(s, oid).place;
    var s1 := Apply(s, Discard(oid));
    var s2 := Succeeded(s, oid, pid, other, |y|);
    t := MarkedByLeftover(s2, other, x, y);
    DiscardPolitely(s, oid);
    LeftoverChain(s, oid, pid, other, y, p, s1, s2, t);
  }

  lemma DiscardPolitely(s: Sys, oid: Oid)
    requires Enabled(s, Discard(oid)) && Usable(s, oid)
    ensures Reaches(s, [Discard(oid)], Apply(s, Discard(oid))) && Politely(s, [Discard(oid)])
  {
    assert [Discard(oid)][1..] == [];
  }

  /** The object that gets the storage of a deleted one, and its hash node. */
  lemma Succeeded(s: Sys, oid: Oid, pid: nat, other: Oid, size: int) returns (s2: Sys)
    requires Inv(s) && Enabled(s, Discard(oid)) && Usable(s, oid) && size == View(s, oid).size
    requires pid !in s.calls && !Taken(s, other) && other !in s.busy && Polite(s, BeginCreate(pid, other, size))
    ensures var s1, p := Apply(s, Discard(oid)), View(s, oid).place;
            && Reaches(s1, WholeCreation(pid, other, size, p), s2)
            && Politely(s1, WholeCreation(pid, other, size, p))
    ensures TablesOk(s2) && Usable(s2, other) && s2.nodes == s.nodes && s2.digest == s.digest
    ensures Open(s2, other) && View(s2, other) == NewEntry(View(s, oid).place, size)
  {
    HandlerView(s, oid);
    var p := View(s, oid).place;
    var s1 := Discarded(s, oid);
    s2 := WhollyCreated(s1, pid, other, size, p);
    CreatesPolitely(s1, pid, other, size, p, s2);
    LeftoverTables(s, oid, pid, other, size, p, s1, s2);
    NewView(s1, s2, other, size, p);
  }

  lemma NewView(s1: Sys, s2: Sys, other: Oid, size: int, p: Place)
    requires 0 < size && other !in s1.busy && s2.busy == s1.busy
    requires s2.cache == s1.cache[other := NewEntry(p, size)]
    ensures Open(s2, other) && View(s2, other) == NewEntry(p, size)
  {
  }

  lemma LeftoverChain(s: Sys, oid: Oid, pid: nat, other: Oid, y: seq<Byte>, p: Place, s1: Sys, s2: Sys, t: Sys)
    requires Reaches(s, [Discard(oid)], s1) && Politely(s, [Discard(oid)])
    requires Reaches(s1, WholeCreation(pid, other, |y|, p), s2) && Politely(s1, WholeCreation(pid, other, |y|, p))
    requires Reaches(s2, [Write(other, 0, y), Mark(other)], t) && Politely(s2, [Write(other, 0, y), Mark(other)])
    ensures Reaches(s, LeftoverSteps(oid, pid, other, y, p), t) && Politely(s, LeftoverSteps(oid, pid, other, y, p))
  {
    var a, b, c := [Discard(oid)], WholeCreation(pid, other, |y|, p), [Write(other, 0, y), Mark(other)];
    ReachesOn(s, a, s1, b, s2);
    PolitelyOn(s, a, s1, b);
    ReachesOn(s, a + b, s2, c, t);
    PolitelyOn(s, a + b, s2, c);
  }

  lemma {:induction false} PoliteKeeps(s: Sys, steps: seq<Step>, t: Sys)
    requires Inv(s) && Reaches(s, steps, t) && Politely(s, steps)
    ensures Inv(t)
    decreases |steps|
  {
    if steps != [] {
      StepKeeps(s, steps[0]);
      PoliteKeeps(Apply(s, steps[0]), steps[1..], t);
    }
  }

  lemma LeftoverTables(s: Sys, oid: Oid, pid: nat, other: Oid, size: int, p: Place, s1: Sys, s2: Sys)
    requires Inv(s) && Enabled(s, Discard(oid)) && Polite(s, Discard(oid)) && s1 == Apply(s, Discard(oid))
    requires Reaches(s1, WholeCreation(pid, other, size, p), s2) && Politely(s1, WholeCreation(pid, other, size, p))
    requires other in s2.cache && s2.making == s1.making - {other} && s2.stale == s1.stale - {other}
             && s2.dead == s1.dead && !Taken(s1, other)
    ensures Inv(s2) && Usable(s2, other)
  {
    StepKeeps(s, Discard(oid));
    assert OidOk(s1, other);
    PoliteKeeps(s1, WholeCreation(pid, other, size, p), s2);
  }
}
