/** The handlers of the object layer as sequences of protocol steps, one call at a time. */
module ApiSteps {
  import opened Layout
  import opened Ownership
  import opened HexCodec
  import opened ObjectSpec
  import opened ObjectProof
  import opened ObjectRuns

  /** No call is in flight. */
  ghost predicate Quiet(s: Sys) { s.busy == map[] && s.calls == map[] && s.bare == {} && s.making == map[] }

  /** The client may use the oid. */
  ghost predicate Known(s: Sys, oid: Oid) { oid !in s.dead && oid !in s.stale }

  /** The state after `operate_dispersed_cache` has looked object `oid` up. */
  ghost function Loaded(s: Sys, oid: Oid): Sys {
    if oid in s.objects && oid !in s.busy && oid !in s.cache then Apply(s, Load(oid)) else s
  }

  lemma LoadedIs(s: Sys, oid: Oid)
    requires Inv(s) && Quiet(s)
    ensures var t := Loaded(s, oid);
            && Inv(t) && Quiet(t) && t == s.(cache := t.cache)
            && t.cache == (if oid in s.objects && oid !in s.cache then s.cache[oid := Decode(s.objects[oid])]
               else s.cache)
  {
    if oid in s.objects && oid !in s.cache { StepKeeps(s, Load(oid)); }
  }

  /** What a client that may use the oid finds is what the object table says. */
  lemma KnownView(s: Sys, oid: Oid)
    requires Inv(s) && Quiet(s) && oid !in s.stale
    ensures oid in s.cache ==> oid in s.objects
    ensures oid in s.objects ==> Agrees(View(s, oid), s.objects[oid]) && DocOk(s.objects[oid])
  {
    assert OidOk(s, oid);
    if Reachable(s, oid) { ViewAgrees(s, oid); }
  }

  /** What any client finds: of an oid whose creation failed, an incomplete object. */
  lemma FetchedView(s: Sys, oid: Oid)
    requires Inv(s) && Quiet(s)
    ensures oid !in s.stale && oid in s.cache ==> oid in s.objects
    ensures oid !in s.stale && oid in s.objects ==> Agrees(View(s, oid), s.objects[oid]) && DocOk(s.objects[oid])
    ensures oid in s.stale && Reachable(s, oid) ==> LeftEntry(View(s, oid))
    ensures oid in s.objects ==> DocOk(s.objects[oid])
  {
    assert OidOk(s, oid);
    if oid !in s.stale && Reachable(s, oid) { ViewAgrees(s, oid); }
  }

  // ----- creating ----------------------------------------------------------------------------------

  /** A `CreateObject` up to the cached entry. */
  ghost function Begun(s: Sys, oid: Oid, size: int, p: Place): Sys
    requires s.calls == map[] && !Taken(s, oid) && oid !in s.busy && SizeOk(size) && PlaceOk(p)
             && Cells(ExtentOf(p, size)) !! s.held
  {
    var s1 := Apply(s, BeginCreate(0, oid, size));
    var s2 := Apply(s1, Allot(0, p));
    var s3 := Apply(s2, Fill(0));
    Apply(s3, Enter(0))
  }

  ghost predicate CanCreate(s: Sys, oid: Oid, size: int, p: Place) {
    Quiet(s) && oid !in s.objects && SizeOk(size) && PlaceOk(p) && Cells(ExtentOf(p, size)) !! s.held
  }

  lemma BegunIs(s: Sys, oid: Oid, size: int, p: Place)
    requires CanCreate(s, oid, size, p)
    ensures var t := Begun(s, oid, size, p);
            t == s.(objects := s.objects[oid := NewDoc(p, size)], cache := s.cache[oid := NewEntry(p, size)],
                    stale := s.stale - {oid},
                    calls := map[0 := Creating(oid, size, Entered(p))], making := map[oid := Creation(0)],
                    held := s.held + Cells(ExtentOf(p, size)))
  {
    assert s.bare + {oid} - {oid} == s.bare;
    OneCall(Creating(oid, size, Reserved), Creating(oid, size, Allotted(p)));
    OneCall(Creating(oid, size, Allotted(p)), Creating(oid, size, Filled(p)));
    OneCall(Creating(oid, size, Filled(p)), Creating(oid, size, Entered(p)));
  }

  lemma OneCall(c: Call, d: Call)
    ensures map[0 as nat := c][0 := d] == map[0 as nat := d] && map[0 as nat := c] - {0} == map[]
  {
  }

  lemma BegunKeeps(s: Sys, oid: Oid, size: int, p: Place)
    requires Inv(s) && CanCreate(s, oid, size, p)
    ensures Inv(Begun(s, oid, size, p))
  {
    var s1 := Apply(s, BeginCreate(0, oid, size));
    StepKeeps(s, BeginCreate(0, oid, size));
    var s2 := Apply(s1, Allot(0, p));
    StepKeeps(s1, Allot(0, p));
    var s3 := Apply(s2, Fill(0));
    StepKeeps(s2, Fill(0));
    StepKeeps(s3, Enter(0));
  }

  /** A `CreateObject` that gets no storage: the document goes, and is then deleted once more. */
  ghost function NoStorage(s: Sys, oid: Oid, size: int): Sys
    requires CanAsk(s, oid, size)
  {
    Apply(Apply(Apply(s, BeginCreate(0, oid, size)), Refuse(0)), Withdraw(0))
  }

  ghost predicate CanAsk(s: Sys, oid: Oid, size: int) { s.calls == map[] && !Taken(s, oid) && SizeOk(size) }

  lemma NoStorageIs(s: Sys, oid: Oid, size: int)
    requires Quiet(s) && oid !in s.objects && SizeOk(size)
    ensures NoStorage(s, oid, size) == s
  {
    OneCall(Creating(oid, size, Reserved), Creating(oid, size, Refused));
    OneCall(Creating(oid, size, Refused), Creating(oid, size, Refused));
    OneMaking(s.bare, oid);
    assert s.objects - {oid} == s.objects && s.bare - {oid} == s.bare;
  }

  /** A `CreateObject` that succeeds, and one that cannot reach the volume's node afterwards. */
  ghost function Created(s: Sys, oid: Oid, size: int, p: Place): Sys
    requires CanCreate(s, oid, size, p)
  {
    BegunIs(s, oid, size, p);
    Apply(Begun(s, oid, size, p), Return(0))
  }

  ghost function Aborted(s: Sys, oid: Oid, size: int, p: Place): Sys
    requires CanCreate(s, oid, size, p)
  {
    BegunIs(s, oid, size, p);
    Apply(Apply(Begun(s, oid, size, p), AbortDoc(0)), AbortFree(0))
  }

  lemma CreatedIs(s: Sys, oid: Oid, size: int, p: Place)
    requires Inv(s) && CanCreate(s, oid, size, p)
    ensures var t := Created(s, oid, size, p);
            && Inv(t) && Quiet(t)
            && t == s.(objects := s.objects[oid := NewDoc(p, size)], cache := s.cache[oid := NewEntry(p, size)],
                       stale := s.stale - {oid}, held := s.held + Cells(ExtentOf(p, size)))
  {
    BegunIs(s, oid, size, p);
    BegunKeeps(s, oid, size, p);
    StepKeeps(Begun(s, oid, size, p), Return(0));
    OneCall(Creating(oid, size, Entered(p)), Creating(oid, size, Entered(p)));
    assert map[oid := Creation(0)] - {oid} == map[];
  }

  lemma AbortedIs(s: Sys, oid: Oid, size: int, p: Place)
    requires Inv(s) && CanCreate(s, oid, size, p)
    ensures var t := Aborted(s, oid, size, p);
            && Inv(t) && Quiet(t)
            && t == s.(cache := s.cache[oid := NewEntry(p, size)], stale := s.stale + {oid})
  {
    BegunIs(s, oid, size, p);
    BegunKeeps(s, oid, size, p);
    var b := Begun(s, oid, size, p);
    StepKeeps(b, AbortDoc(0));
    StepKeeps(Apply(b, AbortDoc(0)), AbortFree(0));
    AbortsTo(s, oid, size, p);
  }

  lemma AbortsTo(s: Sys, oid: Oid, size: int, p: Place)
    requires CanCreate(s, oid, size, p)
    ensures Aborted(s, oid, size, p) == s.(cache := s.cache[oid := NewEntry(p, size)], stale := s.stale + {oid})
  {
    BegunIs(s, oid, size, p);
    DropsTo(Begun(s, oid, size, p), oid, size, p);
    OneMaking(s.bare, oid);
    assert s.objects[oid := NewDoc(p, size)] - {oid} == s.objects;
    assert s.stale - {oid} + {oid} == s.stale + {oid};
    var e := Cells(ExtentOf(p, size));
    assert s.held + e - e == s.held;
  }

  lemma DropsTo(b: Sys, oid: Oid, size: int, p: Place)
    requires b.calls == map[0 := Creating(oid, size, Entered(p))] && SizeOk(size) && b.bare == {}
    ensures Enabled(b, AbortDoc(0)) && Enabled(Apply(b, AbortDoc(0)), AbortFree(0))
    ensures Apply(Apply(b, AbortDoc(0)), AbortFree(0))
         == b.(objects := b.objects - {oid}, stale := b.stale + {oid}, making := b.making - {oid}, calls := map[],
               held := b.held - Cells(ExtentOf(p, size)))
  {
    OneCall(Creating(oid, size, Entered(p)), Creating(oid, size, Dropped(p)));
    OneCall(Creating(oid, size, Dropped(p)), Creating(oid, size, Dropped(p)));
    assert b.bare - {oid} == b.bare;
  }

  // ----- completing, deleting, linking ---------------------------------------------------------------

  /** The handler of an open object the client may use. */
  ghost predicate CanHandle(s: Sys, oid: Oid) { Inv(s) && Quiet(s) && Open(s, oid) && Known(s, oid) }

  /** A call that has joined a record can finish. */
  ghost predicate HasJoined(j: Sys, oid: Oid) {
    oid in j.objects && oid in j.busy && j.busy[oid].Joined? && j.busy[oid].key in j.hashes
  }

  /** The rest of a completing call that has joined a record. */
  ghost function Adopted(j: Sys, oid: Oid): Sys
    requires HasJoined(j, oid)
  {
    if j.busy[oid].first then Apply(j, Adopt(oid)) else Apply(Apply(j, FreeOwn(oid)), Adopt(oid))
  }

  /** A whole `CompleteObject`: the phases of the completing call, one after the other. */
  ghost function Completed(s: Sys, oid: Oid): Sys
    requires CanHandle(s, oid)
  {
    HandlerView(s, oid);
    JoinedIs(s, oid);
    Adopted(Apply(Apply(s, Mark(oid)), Join(oid)), oid)
  }

  lemma CompletedKeeps(s: Sys, oid: Oid)
    requires CanHandle(s, oid)
    ensures Inv(Completed(s, oid))
  {
    JoinedIs(s, oid);
    JoinedKeeps(s, oid);
    AdoptedKeeps(Apply(Apply(s, Mark(oid)), Join(oid)), oid);
  }

  lemma JoinedKeeps(s: Sys, oid: Oid)
    requires CanHandle(s, oid)
    ensures Enabled(s, Mark(oid)) && Enabled(Apply(s, Mark(oid)), Join(oid))
    ensures Inv(Apply(Apply(s, Mark(oid)), Join(oid)))
  {
    MarkedKeeps(s, oid);
    StepKeeps(Apply(s, Mark(oid)), Join(oid));
  }

  lemma MarkedKeeps(s: Sys, oid: Oid)
    requires CanHandle(s, oid)
    ensures Enabled(s, Mark(oid)) && Inv(Apply(s, Mark(oid))) && Enabled(Apply(s, Mark(oid)), Join(oid))
  {
    HandlerView(s, oid);
    StepKeeps(s, Mark(oid));
    MarkedPhase(s, oid);
  }

  lemma MarkedPhase(s: Sys, oid: Oid)
    requires Enabled(s, Mark(oid))
    ensures Enabled(Apply(s, Mark(oid)), Join(oid))
  {
  }

  lemma AdoptedKeeps(j: Sys, oid: Oid)
    requires Inv(j) && HasJoined(j, oid)
    ensures Inv(Adopted(j, oid))
  {
    if j.busy[oid].first {
      StepKeeps(j, Adopt(oid));
    } else {
      StepKeeps(j, FreeOwn(oid));
      StepKeeps(Apply(j, FreeOwn(oid)), Adopt(oid));
    }
  }

  /** The record an object joins, and where that puts it. */
  function JoinedRecord(s: Sys, c: Cached, hash: string, d: Doc): (Key, Record, Place) {
    var key := Key(hash, c.size, d.head);
    var r := Joining(s.hashes, key, c.place);
    (key, r, if r.everCount > 1 then r.place else c.place)
  }

  /** The state after marking and joining. */
  lemma JoinedIs(s: Sys, oid: Oid)
    requires CanHandle(s, oid)
    ensures oid in s.objects
    ensures var d, c := s.objects[oid], View(s, oid);
            var hash := s.digest(NodeInput(s.bytes, s.nodes, c));
            var (key, r, p) := JoinedRecord(s, c, hash, d);
            && (r.everCount > 1 <==> key in s.hashes) && HasJoined(Apply(Apply(s, Mark(oid)), Join(oid)), oid)
            && Apply(Apply(s, Mark(oid)), Join(oid))
               == s.(objects := s.objects[oid := d.(hash := hash, complete := true)], hashes := s.hashes[key := r],
                     busy := map[oid := Joined(c.(hash := hash, complete := true), key, !(r.everCount > 1))],
                     nodes := s.nodes - {c.place})
  {
    HandlerView(s, oid);
    var d, c := s.objects[oid], View(s, oid);
    var key := Key(s.digest(NodeInput(s.bytes, s.nodes, c)), c.size, d.head);
    assert key in s.hashes ==> RecordOk(key, s.hashes[key]);
    var m := MarkedIs(s, oid);
    JoinedFrom(m, oid, m.busy[oid].entry, key);
  }

  lemma JoinedFrom(m: Sys, oid: Oid, entry: Cached, key: Key)
    requires m.busy == map[oid := Marked(entry, key)]
    ensures var r := Joining(m.hashes, key, entry.place);
            Apply(m, Join(oid)) == m.(hashes := m.hashes[key := r],
                                      busy := map[oid := Joined(entry, key, !(r.everCount > 1))])
  {
    OneLock(oid, m.busy[oid], Apply(m, Join(oid)).busy[oid]);
  }

  lemma MarkedIs(s: Sys, oid: Oid) returns (m: Sys)
    requires Quiet(s) && Open(s, oid) && oid in s.objects
    ensures m == Apply(s, Mark(oid))
    ensures var d, c := s.objects[oid], View(s, oid);
            var hash := s.digest(NodeInput(s.bytes, s.nodes, c));
            m == s.(objects := s.objects[oid := d.(hash := hash, complete := true)], nodes := s.nodes - {c.place},
                    busy := map[oid := Marked(c.(hash := hash, complete := true), Key(hash, c.size, d.head))])
  {
    m := Apply(s, Mark(oid));
  }

  lemma OneLock(oid: Oid, a: Phase, b: Phase)
    ensures map[oid := a][oid := b] == map[oid := b] && map[oid := a] - {oid} == map[]
  {
  }

  /** From there to the end of the call. */
  lemma AdoptedIs(j: Sys, oid: Oid, entry: Cached, key: Key, first: bool)
    requires j.busy == map[oid := Joined(entry, key, first)] && oid in j.objects && key in j.hashes
    ensures var p := j.hashes[key].place;
            && HasJoined(j, oid)
            && Adopted(j, oid) == j.(objects := j.objects[oid := j.objects[oid].(place := p)],
                 cache := j.cache[oid := entry.(place := p)], busy := map[],
                 held := if first then j.held else j.held - Cells(ExtentOf(entry.place, entry.size)))
  {
    OneLock(oid, Joined(entry, key, first), Freed(entry, key));
    OneLock(oid, Freed(entry, key), Freed(entry, key));
  }

  lemma CompletedIs(s: Sys, oid: Oid)
    requires CanHandle(s, oid)
    ensures oid in s.objects
    ensures var t, d, c := Completed(s, oid), s.objects[oid], View(s, oid);
            var hash := s.digest(NodeInput(s.bytes, s.nodes, c));
            var (key, r, p) := JoinedRecord(s, c, hash, d);
            t == s.(objects := s.objects[oid := d.(hash := hash, complete := true, place := p)],
                    hashes := s.hashes[key := r],
                    cache := s.cache[oid := c.(hash := hash, complete := true, place := p)],
                        nodes := s.nodes - {c.place},
                    held := if r.everCount > 1 then s.held - Cells(ExtentOf(c.place, c.size)) else s.held)
  {
    HandlerView(s, oid);
    JoinedIs(s, oid);
    var c := View(s, oid);
    var hash := s.digest(NodeInput(s.bytes, s.nodes, c));
    var (key, r, p) := JoinedRecord(s, c, hash, s.objects[oid]);
    var j := Apply(Apply(s, Mark(oid)), Join(oid));
    AdoptedIs(j, oid, c.(hash := hash, complete := true), key, !(r.everCount > 1));
    AdoptTwice(s.objects, oid, s.objects[oid].(hash := hash, complete := true), p);
  }

  lemma AdoptTwice(objects: map<Oid, Doc>, oid: Oid, d: Doc, p: Place)
    ensures objects[oid := d][oid := d.(place := p)] == objects[oid := d.(place := p)]
  {
  }

  /** A whole `DeleteObject` of a complete object. */
  ghost function Deleted(s: Sys, oid: Oid): Sys
    requires oid in s.objects && Reachable(s, oid) && View(s, oid).complete
  {
    Apply(Apply(s, Unlink(oid)), Forget(oid))
  }

  lemma DeletedIs(s: Sys, oid: Oid)
    requires Inv(s) && Quiet(s) && Finished(s, oid)
    ensures Reachable(s, oid) && View(s, oid).complete && Inv(Deleted(s, oid))
    ensures var c := View(s, oid);
            var key := Key(c.hash, c.size, Bin2Hex(c.head));
            && key == KeyOf(s.objects[oid]) && key in s.hashes
            && Deleted(s, oid)
               == s.(objects := s.objects - {oid}, hashes := s.hashes[key := AddRef(s.hashes[key], -1, 0)],
                                     cache := s.cache - {oid})
  {
    assert OidOk(s, oid);
    ViewAgrees(s, oid);
    StepKeeps(s, Unlink(oid));
    StepKeeps(Apply(s, Unlink(oid)), Forget(oid));
    DeletesTo(s, oid);
  }

  lemma DeletesTo(s: Sys, oid: Oid)
    requires Quiet(s) && oid in s.objects && Reachable(s, oid) && View(s, oid).complete
    ensures var c := View(s, oid);
            var key := Key(c.hash, c.size, Bin2Hex(c.head));
            key in s.hashes ==>
              Deleted(s, oid) == s.(objects := s.objects - {oid}, cache := s.cache - {oid},
                                    hashes := s.hashes[key := AddRef(s.hashes[key], -1, 0)])
  {
    var u := Apply(s, Unlink(oid));
    assert u.busy - {oid} == map[] && s.bare - {oid} == {};
  }

  /** A whole `CreateObjectLink` of a known key: a taken oid undoes the count. */
  ghost function Linked(s: Sys, oid: Oid, key: Key): Sys
    requires Quiet(s) && key in s.hashes
  {
    var b := Apply(s, BeginLink(0, oid, key));
    if Taken(s, oid) then Apply(b, UndoLink(0)) else Apply(Apply(b, InsertLink(0)), FillLink(0))
  }

  lemma LinkedIs(s: Sys, oid: Oid, key: Key)
    requires Quiet(s) && key in s.hashes
    ensures Linked(s, oid, key)
         == if oid in s.objects then s.(hashes := s.hashes[key := AddRef(s.hashes[key], 0, 1)])
            else s.(objects := s.objects[oid := LinkedDoc(s.hashes[key], key)],
                    hashes := s.hashes[key := AddRef(s.hashes[key], 1, 1)])
  {
    OneCall(Linking(oid, key, false), Linking(oid, key, true));
    OneCall(Linking(oid, key, true), Linking(oid, key, true));
    OneMaking(s.bare, oid);
    if oid in s.objects { UndoneIs(s, oid, key); } else { FilledIs(s, oid, key); }
  }

  lemma OneMaking(bare: set<Oid>, oid: Oid)
    requires bare == {}
    ensures map[oid := Creation(0)] - {oid} == map[] && map[oid := Link(0)] - {oid} == map[]
    ensures bare + {oid} - {oid} == bare
  {
  }

  lemma UndoneIs(s: Sys, oid: Oid, key: Key)
    requires Quiet(s) && key in s.hashes && oid in s.objects
    ensures Linked(s, oid, key) == s.(hashes := s.hashes[key := AddRef(s.hashes[key], 0, 1)])
  {
    OneCall(Linking(oid, key, false), Linking(oid, key, false));
    assert s.hashes[key := AddRef(s.hashes[key], 1, 1)][key := AddRef(s.hashes[key], 0, 1)]
        == s.hashes[key := AddRef(s.hashes[key], 0, 1)];
  }

  lemma FilledIs(s: Sys, oid: Oid, key: Key)
    requires Quiet(s) && key in s.hashes && oid !in s.objects
    ensures Linked(s, oid, key)
         == s.(objects := s.objects[oid := LinkedDoc(s.hashes[key], key)],
               hashes := s.hashes[key := AddRef(s.hashes[key], 1, 1)])
  {
    OneCall(Linking(oid, key, false), Linking(oid, key, true));
    OneCall(Linking(oid, key, true), Linking(oid, key, true));
    OneMaking(s.bare, oid);
  }

  lemma LinkedKeeps(s: Sys, oid: Oid, key: Key)
    requires Inv(s) && Quiet(s) && key in s.hashes && oid !in s.stale
    ensures Inv(Linked(s, oid, key))
  {
    StepKeeps(s, BeginLink(0, oid, key));
    var b := Apply(s, BeginLink(0, oid, key));
    if Taken(s, oid) { StepKeeps(b, UndoLink(0)); } else { InsertedKeeps(b, oid, key); }
  }

  lemma InsertedKeeps(b: Sys, oid: Oid, key: Key)
    requires Inv(b) && b.calls == map[0 := Linking(oid, key, false)] && key in b.hashes && !Taken(b, oid)
    ensures Enabled(b, InsertLink(0)) && Enabled(Apply(b, InsertLink(0)), FillLink(0))
    ensures Inv(Apply(Apply(b, InsertLink(0)), FillLink(0)))
  {
    StepKeeps(b, InsertLink(0));
    StepKeeps(Apply(b, InsertLink(0)), FillLink(0));
  }

  // ----- what the calls leave in the tables ----------------------------------------------------------

  /** Storage of `size` bytes at `p`, in whole units. */
  predicate Within(x: Cell, p: Place, size: int) {
    x.0 == p.vol && Pos(p) <= x.1 < Pos(p) + size + (if size % 16 == 0 then 0 else 16 - size % 16)
  }

  ghost predicate Takes(held: iset<Cell>, after: iset<Cell>, p: Place, size: int) {
    forall x: Cell :: (x in after <==> x in held || Within(x, p, size)) && !(x in held && Within(x, p, size))
  }

  ghost predicate GivesBack(held: iset<Cell>, after: iset<Cell>, p: Place, size: int) {
    forall x: Cell :: x in after <==> x in held && !Within(x, p, size)
  }

  lemma Hands(held: iset<Cell>, p: Place, size: int)
    requires 0 < size
    ensures Cells(ExtentOf(p, size)) !! held ==> Takes(held, held + Cells(ExtentOf(p, size)), p, size)
    ensures GivesBack(held, held - Cells(ExtentOf(p, size)), p, size)
  {
    var e := Cells(ExtentOf(p, size));
    assert DataAlign(size) == size + if size % 16 == 0 then 0 else 16 - size % 16;
    assert forall x: Cell :: x in e <==> Within(x, p, size);
  }

  /** `t` has what `s` has and a new object `oid` of `size` bytes, incomplete, without a hash and with
      zeros for its first sixteen bytes, in storage nobody held. */
  ghost predicate MakesObject(s: Sys, t: Sys, oid: Oid, size: int) {
    && oid in t.objects && oid in t.cache && t.hashes == s.hashes && t.bytes == s.bytes
    && t.objects == s.objects[oid := t.objects[oid]] && t.cache == s.cache[oid := t.cache[oid]]
    && var d, c := t.objects[oid], t.cache[oid];
    && d == Doc(d.place, size, false, "", d.head) && c == Cached(d.place, size, false, "", c.head, 0)
    && |d.head| == 2 * |c.head| && |c.head| == (if size < 16 then size else 16)
    && (forall n :: 0 <= n < |d.head| ==> d.head[n] == '0') && (forall n :: 0 <= n < |c.head| ==> c.head[n] == 0)
    && Takes(s.held, t.held, d.place, size)
  }

  lemma CreatedLeaves(s: Sys, oid: Oid, size: int, p: Place)
    requires Inv(s) && CanCreate(s, oid, size, p)
    ensures MakesObject(s, Created(s, oid, size, p), oid, size)
  {
    CreatedIs(s, oid, size, p);
    ZeroDigits(Zeros(HeadLen(size)));
    Hands(s.held, p, size);
  }

  /** `t` has the object `oid` of `s` completed: nothing else of it changed but where it lies. With a
      known key it is counted in that record, lies where the record does and its own storage has been
      given back; otherwise it is the first object of a new record. */
  ghost predicate CompletesObject(s: Sys, t: Sys, oid: Oid)
    requires oid in s.objects
  {
    && oid in t.objects && oid in t.cache && t.objects == s.objects[oid := t.objects[oid]] && t.bytes == s.bytes
    && var d, e, c := s.objects[oid], t.objects[oid], t.cache[oid];
    var key := Key(e.hash, d.size, d.head);
    && e == Doc(e.place, d.size, true, s.digest(NodeInput(s.bytes, s.nodes, View(s, oid))), d.head)
    && c.complete && c.place == e.place && c.hash == e.hash
    && (key in s.hashes ==>
         && t.hashes == s.hashes[key := Record(e.place, s.hashes[key].refCount + 1, s.hashes[key].everCount + 1)]
         && e.place == s.hashes[key].place && GivesBack(s.held, t.held, d.place, d.size))
    && (key !in s.hashes ==>
         t.hashes == s.hashes[key := Record(d.place, 1, 1)] && e.place == d.place && t.held == s.held)
  }

  lemma CompletedLeaves(s: Sys, oid: Oid)
    requires CanHandle(s, oid)
    ensures oid in s.objects && CompletesObject(s, Completed(s, oid), oid)
  {
    CompletedIs(s, oid);
    HandlerView(s, oid);
    JoinedIs(s, oid);
    var hash := s.digest(NodeInput(s.bytes, s.nodes, View(s, oid)));
    CompletesIt(s, Completed(s, oid), oid, s.objects[oid], View(s, oid), hash);
  }

  lemma CompletesIt(s: Sys, t: Sys, oid: Oid, d: Doc, c: Cached, hash: string)
    requires oid in s.objects && d == s.objects[oid] && c.place == d.place && c.size == d.size && 0 < d.size
    requires c == View(s, oid) && hash == s.digest(NodeInput(s.bytes, s.nodes, c))
    requires var (key, r, p) := JoinedRecord(s, c, hash, d);
             && (r.everCount > 1 <==> key in s.hashes)
             && t.objects == s.objects[oid := d.(hash := hash, complete := true, place := p)]
             && t.hashes == s.hashes[key := r] && t.bytes == s.bytes
             && t.cache == s.cache[oid := c.(hash := hash, complete := true, place := p)]
             && t.held == if r.everCount > 1 then s.held - Cells(ExtentOf(c.place, c.size)) else s.held
    ensures CompletesObject(s, t, oid)
  {
    Hands(s.held, d.place, d.size);
  }

  /** A deleted object is gone from the object table and the cache, and counts no more in its record. */
  ghost predicate DeletesObject(s: Sys, t: Sys, oid: Oid)
    requires oid in s.objects
  {
    && t.objects == s.objects - {oid} && oid !in t.cache && t.held == s.held && t.bytes == s.bytes
    && var d := s.objects[oid];
    var key := Key(d.hash, d.size, d.head);
    && key in s.hashes
    && t.hashes == s.hashes[key := Record(s.hashes[key].place, s.hashes[key].refCount - 1, s.hashes[key].everCount)]
  }

  lemma DeletedLeaves(s: Sys, oid: Oid)
    requires Inv(s) && Quiet(s) && Finished(s, oid)
    ensures Reachable(s, oid) && View(s, oid).complete && DeletesObject(s, Deleted(s, oid), oid)
  {
    DeletedIs(s, oid);
  }

  /** Deleted incomplete, it stays in the tables and only its storage is given back. */
  ghost predicate DiscardsObject(s: Sys, t: Sys, oid: Oid)
    requires oid in s.objects
  {
    && t.objects == s.objects && t.hashes == s.hashes && t.bytes == s.bytes
    && GivesBack(s.held, t.held, s.objects[oid].place, s.objects[oid].size)
  }

  lemma DiscardedLeaves(s: Sys, oid: Oid)
    requires CanHandle(s, oid)
    ensures oid in s.objects && DiscardsObject(s, Apply(s, Discard(oid)), oid)
  {
    HandlerView(s, oid);
    DiscardsIt(s, oid, View(s, oid));
  }

  lemma DiscardsIt(s: Sys, oid: Oid, c: Cached)
    requires Open(s, oid) && oid in s.objects && c == View(s, oid)
    requires c.place == s.objects[oid].place && c.size == s.objects[oid].size && 0 < c.size
    ensures DiscardsObject(s, Apply(s, Discard(oid)), oid)
  {
    Hands(s.held, c.place, c.size);
  }

  /** A link counts in the record; the object is new, complete and lies where the record does. */
  ghost predicate LinksObject(s: Sys, t: Sys, oid: Oid, key: Key) {
    && key in s.hashes && t == s.(objects := t.objects, hashes := t.hashes)
    && var r := s.hashes[key];
    if oid in s.objects then
      t.objects == s.objects && t.hashes == s.hashes[key := Record(r.place, r.refCount, r.everCount + 1)]
    else
      && t.objects == s.objects[oid := Doc(r.place, key.size, true, key.hash, key.head)]
      && t.hashes == s.hashes[key := Record(r.place, r.refCount + 1, r.everCount + 1)]
  }

  lemma LinkedLeaves(s: Sys, oid: Oid, key: Key)
    requires Quiet(s) && key in s.hashes
    ensures LinksObject(s, Linked(s, oid, key), oid, key)
  {
    LinkedIs(s, oid, key);
  }
}
