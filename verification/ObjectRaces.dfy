/**
 What the object layer does when a client or a failure breaks the conditions of its promises: each
 failure with a run that shows it, and exactly when it happens.
 */
module ObjectRaces {
  import opened Layout
  import opened Ownership
  import opened HexCodec
  import opened ObjectSpec
  import opened ObjectProof
  import opened ObjectRuns
  import opened ObjectNodes
  import opened ObjectContents
  import S = StorageSpec

  // ----- using an object before its creation has returned ---------------------------------------------

  /** The late cached entry of a creation agrees with the document exactly when nobody has changed
      the document since it was filled. */
  lemma EnterAgreesIff(s: Sys, pid: nat)
    requires Enabled(s, Enter(pid)) && SizeOk(s.calls[pid].size) && PlaceOk(s.calls[pid].stage.place)
    ensures var c, u := s.calls[pid], Apply(s, Enter(pid));
            c.oid in u.objects && Agrees(u.cache[c.oid], u.objects[c.oid])
            <==> c.oid in s.objects && s.objects[c.oid] == NewDoc(c.stage.place, c.size)
  {
    NewDocOk(s.calls[pid].stage.place, s.calls[pid].size);
  }

  /** ... which is so whenever clients wait for `CreateObject` to return. */
  lemma PoliteEntersAgree(states: seq<Sys>, steps: seq<Step>, i: nat, pid: nat)
    requires IsRun(states, steps) && Inv(states[0]) && i < |steps| && steps[i] == Enter(pid)
    ensures var oid := states[i].calls[pid].oid;
            oid in states[i + 1].objects && Agrees(states[i + 1].cache[oid], states[i + 1].objects[oid])
  {
    assert TablesOk(states[i]) by { RunKeeps(states, steps, i); }
    assert CallOk(states[i], pid);
    EnterAgreesIff(states[i], pid);
  }

  /** The steps of two clients: one creates the object, the other writes and completes it before the
      first has written the cached entry. */
  function LateSteps(oid: Oid, size: int, p: Place, x: seq<Byte>): seq<Step> {
    CreateSteps(0, oid, size, p) + CompleteSteps(oid, x) + [Enter(0)]
  }

  function CreateSteps(pid: nat, oid: Oid, size: int, p: Place): seq<Step>
  {
    [BeginCreate(pid, oid, size), Allot(pid, p), Fill(pid)]
  }

  function CompleteSteps(oid: Oid, x: seq<Byte>): seq<Step> { [Write(oid, 0, x), Mark(oid), Join(oid), Adopt(oid)] }

  /** The states a sequence of steps goes through, as far as the code can take them. */
  ghost predicate Reaches(s: Sys, steps: seq<Step>, t: Sys)
    decreases |steps|
  {
    if steps == [] then s == t else Enabled(s, steps[0]) && Reaches(Apply(s, steps[0]), steps[1..], t)
  }

  lemma {:induction false} ReachesOn(s: Sys, a: seq<Step>, t: Sys, b: seq<Step>, u: Sys)
    requires Reaches(s, a, t) && Reaches(t, b, u)
    ensures Reaches(s, a + b, u)
    decreases |a|
  {
    if a == [] {
      assert a + b == b;
    } else {
      ReachesOn(Apply(s, a[0]), a[1..], t, b, u);
      assert (a + b)[1..] == a[1..] + b;
    }
  }

  /** What they lead to: the object is complete and is its record's, but the cache says it is not. */
  ghost predicate Hidden(s: Sys, oid: Oid, p: Place, size: int) {
    && 0 < size && oid in s.objects && s.objects[oid].complete && s.objects[oid].place == p
       && s.objects[oid].size == size
    && KeyOf(s.objects[oid]) in s.hashes && s.hashes[KeyOf(s.objects[oid])].place == p
    && oid !in s.busy && oid in s.cache && s.cache[oid] == NewEntry(p, size)
  }

  /** Writing and completing it meanwhile. */
  lemma CompletedMeanwhile(s: Sys, oid: Oid, x: seq<Byte>) returns (t: Sys)
    requires s.hashes == map[] && oid in s.objects && oid !in s.busy && oid !in s.cache
    requires var d := s.objects[oid]; !d.complete && 0 < d.size && x != []
    ensures Reaches(s, CompleteSteps(oid, x), t)
    ensures oid in t.objects && t.objects[oid].complete && oid !in t.busy && t.calls == s.calls
    ensures t.objects[oid].place == s.objects[oid].place && t.objects[oid].size == s.objects[oid].size
    ensures RecordAt(t.hashes, KeyOf(t.objects[oid]), t.objects[oid].place)
  {
    var s1 := Apply(s, Write(oid, 0, x));
    assert Open(s1, oid) && oid in s1.objects && s1.hashes == map[] && View(s1, oid).place == s.objects[oid].place;
    t := CompletedFrom(s1, oid);
    assert Reaches(s, [Write(oid, 0, x)], s1);
    ReachesOn(s, [Write(oid, 0, x)], s1, [Mark(oid), Join(oid), Adopt(oid)], t);
    assert CompleteSteps(oid, x) == [Write(oid, 0, x)] + [Mark(oid), Join(oid), Adopt(oid)];
  }

  lemma CompletedFrom(s: Sys, oid: Oid) returns (t: Sys)
    requires s.hashes == map[] && Open(s, oid) && oid in s.objects
    requires View(s, oid).place == s.objects[oid].place && View(s, oid).size == s.objects[oid].size
    ensures Reaches(s, [Mark(oid), Join(oid), Adopt(oid)], t)
    ensures oid in t.objects && t.objects[oid].complete && oid !in t.busy && t.calls == s.calls
    ensures t.objects[oid].place == s.objects[oid].place && t.objects[oid].size == s.objects[oid].size
    ensures RecordAt(t.hashes, KeyOf(t.objects[oid]), t.objects[oid].place)
  {
    var s1 := Apply(s, Mark(oid));
    var s2 := JoinedAlone(s1, oid);
    t := Apply(s2, Adopt(oid));
    ReachesThree(s, Mark(oid), s1, Join(oid), s2, Adopt(oid));
  }

  lemma JoinedAlone(s: Sys, oid: Oid) returns (t: Sys)
    requires s.hashes == map[] && Enabled(s, Join(oid))
    ensures t == Apply(s, Join(oid)) && t.objects == s.objects && t.calls == s.calls && oid in t.busy
    ensures t.busy[oid] == Joined(s.busy[oid].entry, s.busy[oid].key, true)
    ensures RecordAt(t.hashes, s.busy[oid].key, s.busy[oid].entry.place)
  {
    t := Apply(s, Join(oid));
  }

  lemma LateRun(s: Sys, oid: Oid, size: int, p: Place, x: seq<Byte>) returns (t: Sys)
    requires s.calls == map[] && s.hashes == map[] && !Taken(s, oid) && oid !in s.busy && oid !in s.cache
    requires SizeOk(size) && PlaceOk(p) && Cells(ExtentOf(p, size)) !! s.held && x != []
    ensures Reaches(s, LateSteps(oid, size, p, x), t) && Hidden(t, oid, p, size)
  {
    var s1 := CreatedAt(s, 0, oid, size, p);
    var s2 := CompletedMeanwhile(s1, oid, x);
    t := EnteredLate(s2, oid, p, size);
    ReachesOn(s, CreateSteps(0, oid, size, p), s1, CompleteSteps(oid, x), s2);
    ReachesOn(s, CreateSteps(0, oid, size, p) + CompleteSteps(oid, x), s2, [Enter(0)], t);
  }

  /** The late entry hides that the object is complete, and the next write then changes the bytes of
      its record, which every object sharing it reads. */
  lemma LateEntryHidesCompletion(s: Sys, oid: Oid, size: int, p: Place, x: seq<Byte>, b: Byte) returns (t: Sys)
    requires s.calls == map[] && s.hashes == map[] && !Taken(s, oid) && oid !in s.busy && oid !in s.cache
    requires SizeOk(size) && PlaceOk(p) && Cells(ExtentOf(p, size)) !! s.held && x != []
    ensures Reaches(s, LateSteps(oid, size, p, x), t) && Hidden(t, oid, p, size)
    ensures Enabled(t, Write(oid, 0, [b]))
    ensures t.bytes((p.vol, Pos(p))) != b ==>
              Content(Apply(t, Write(oid, 0, [b])).bytes, p, size) != Content(t.bytes, p, size)
  {
    t := LateRun(s, oid, size, p, x);
    if t.bytes((p.vol, Pos(p))) != b { DeadWrite(t, oid, b); }
  }

  lemma EnteredLate(s: Sys, oid: Oid, p: Place, size: int) returns (t: Sys)
    requires 0 in s.calls && s.calls[0] == Creating(oid, size, Filled(p)) && 0 < size && oid !in s.busy
    requires oid in s.objects && s.objects[oid].complete && s.objects[oid].place == p && s.objects[oid].size == size
    requires RecordAt(s.hashes, KeyOf(s.objects[oid]), p)
    ensures Reaches(s, [Enter(0)], t) && Hidden(t, oid, p, size)
  {
    t := Apply(s, Enter(0));
    assert [Enter(0)][1..] == [];
  }

  // ----- objects the node does not hash whole --------------------------------------------------------

  /** A write that starts inside the hashed prefix spoils the hash exactly when it changes hashed bytes. */
  lemma RewriteSpoilsIff(bytes: Cell -> Byte, nodes: map<Place, S.HashNode>, p: Place, size: int, offset: int,
                         part: seq<Byte>)
    requires PlaceOk(p) && HashesPrefix(bytes, nodes, p, size) && 0 <= offset < NodeAt(nodes, p).hashed
             && offset + |part| <= size
    ensures var m := Min(|part|, NodeAt(nodes, p).hashed - offset);
            HashesPrefix(Written(bytes, p.vol, Pos(Address(p, offset)), part), NodesAfter(nodes, p, offset, part), p,
                         size)
            <==> part[..m] == Content(bytes, p, size)[offset..offset + m]
  {
    AddressIs(p, offset);
    var n, at := NodeAt(nodes, p), Pos(Address(p, offset));
    var m := Min(|part|, n.hashed - offset);
    OverlaidContent(bytes, p, size, offset, part, at);
    var before, after := Content(bytes, p, size), Content(Written(bytes, p.vol, at, part), p, size);
    assert n.fed == before[..n.hashed];
    assert Content(Written(bytes, p.vol, at, part), p, n.hashed) == after[..n.hashed];
    assert NodeAt(NodesAfter(nodes, p, offset, part), p) == n;
    if part[..m] == before[offset..offset + m] {
      forall i | 0 <= i < n.hashed ensures after[i] == before[i] {
        if offset <= i < offset + |part| { assert part[..m][i - offset] == before[offset..offset + m][i - offset]; }
      }
      assert after[..n.hashed] == before[..n.hashed];
    } else {
      var i :| 0 <= i < m && part[..m][i] != before[offset..offset + m][i];
      assert after[..n.hashed][offset + i] != before[..n.hashed][offset + i];
    }
  }

  /** The key under which content `x` belongs. */
  function KeyFor(digest: seq<Byte> -> string, x: seq<Byte>): Key
    requires 0 < |x|
  {
    Key(digest(x), |x|, Bin2Hex(x[..HeadLen(|x|)]))
  }

  /** An object that is written whole, then changed at `k` behind its head, and completed, is
      recorded under the key of what it contained before the change. */
  lemma RewrittenHash(s: Sys, oid: Oid, x: seq<Byte>, k: nat, y: Byte) returns (t: Sys)
    requires Inv(s) && Open(s, oid) && Usable(s, oid) && View(s, oid).flags != 1
             && NodeAt(s.nodes, View(s, oid).place) == S.HashNode([], 0)
    requires x != [] && |x| == View(s, oid).size && HeadLen(|x|) <= k < |x| && y != x[k]
    ensures Reaches(s, [Write(oid, 0, x), Write(oid, k, [y]), Mark(oid)], t)
    ensures oid in t.busy && t.busy[oid].Marked? && t.busy[oid].key == KeyFor(s.digest, x)
    ensures Content(t.bytes, t.busy[oid].entry.place, |x|) == x[k := y] != x
  {
    var s1 := Apply(s, Write(oid, 0, x));
    WholeWritten(s, oid, x);
    var s2 := Apply(s1, Write(oid, k, [y]));
    OneByteWritten(s1, oid, x, k, y);
    HashedMark(s2, oid, x, x[k := y]);
    t := Apply(s2, Mark(oid));
    ReachesThree(s, Write(oid, 0, x), s1, Write(oid, k, [y]), s2, Mark(oid));
  }

  lemma ReachesThree(s: Sys, a: Step, s1: Sys, b: Step, s2: Sys, c: Step)
    requires Enabled(s, a) && s1 == Apply(s, a) && Enabled(s1, b) && s2 == Apply(s1, b) && Enabled(s2, c)
    ensures Reaches(s, [a, b, c], Apply(s2, c))
  {
    assert Reaches(s2, [c], Apply(s2, c));
    assert [b, c][1..] == [c];
    assert Reaches(s1, [b, c], Apply(s2, c));
    assert [a, b, c][1..] == [b, c];
  }

  lemma HashedMark(s: Sys, oid: Oid, x: seq<Byte>, content: seq<Byte>)
    requires HashedWhole(s, oid, x, content)
    ensures var t := Apply(s, Mark(oid));
            && oid in t.busy && t.busy[oid].Marked? && t.busy[oid].key == KeyFor(s.digest, x)
            && Content(t.bytes, t.busy[oid].entry.place, |x|) == content
  {
    assert NodeInput(s.bytes, s.nodes, View(s, oid)) == x;
  }

  /** The object has been written whole and hashed whole. */
  ghost predicate HashedWhole(s: Sys, oid: Oid, x: seq<Byte>, content: seq<Byte>) {
    && x != [] && Open(s, oid) && oid in s.objects && s.objects[oid].head == Bin2Hex(x[..HeadLen(|x|)])
    && var c := View(s, oid);
       && PlaceOk(c.place) && c.size == |x| && c.flags != 1
       && NodeAt(s.nodes, c.place) == S.HashNode(x, |x|) && Content(s.bytes, c.place, |x|) == content
  }

  lemma WholeWritten(s: Sys, oid: Oid, x: seq<Byte>)
    requires TablesOk(s) && Open(s, oid) && Usable(s, oid) && View(s, oid).flags != 1
             && NodeAt(s.nodes, View(s, oid).place) == S.HashNode([], 0)
    requires x != [] && |x| == View(s, oid).size
    ensures HashedWhole(Apply(s, Write(oid, 0, x)), oid, x, x) && Apply(s, Write(oid, 0, x)).digest == s.digest
  {
    HandlerView(s, oid);
    var c := View(s, oid);
    AddressIs(c.place, 0);
    OverlaidContent(s.bytes, c.place, c.size, 0, x, Pos(Address(c.place, 0)));
    WholeOverlay(c, x, Content(s.bytes, c.place, c.size));
    WholeIs(s, oid, x);
  }

  lemma WholeIs(s: Sys, oid: Oid, x: seq<Byte>)
    requires Enabled(s, Write(oid, 0, x)) && oid in s.objects
    ensures var u, c := Apply(s, Write(oid, 0, x)), View(s, oid);
            && Open(u, oid) && oid in u.objects && View(u, oid) == EntryWritten(c, 0, x)
            && u.objects[oid] == DocWritten(s.objects[oid], c, 0, x)
            && u.nodes == NodesAfter(s.nodes, c.place, 0, Clipped(c.size, 0, x))
            && u.bytes == Written(s.bytes, c.place.vol, Pos(Address(c.place, 0)), Clipped(c.size, 0, x))
  {
  }

  lemma WholeOverlay(c: Cached, x: seq<Byte>, before: seq<Byte>)
    requires 0 < c.size == |x| == |before|
    ensures Clipped(c.size, 0, x) == x && Overlay(before, 0, x) == x
    ensures EntryWritten(c, 0, x) == c.(head := x[..HeadLen(|x|)])
    ensures S.NodeAfter(S.HashNode([], 0), Pos(c.place), Pos(c.place), x) == S.HashNode(x, |x|)
  {
    assert Clipped(c.size, 0, x) == x;
  }

  lemma OneByteWritten(s: Sys, oid: Oid, x: seq<Byte>, k: nat, y: Byte)
    requires HashedWhole(s, oid, x, x) && HeadLen(|x|) <= k < |x|
    ensures HashedWhole(Apply(s, Write(oid, k, [y])), oid, x, x[k := y])
            && Apply(s, Write(oid, k, [y])).digest == s.digest
  {
    var c := View(s, oid);
    AddressIs(c.place, k);
    OverlaidContent(s.bytes, c.place, c.size, k, [y], Pos(Address(c.place, k)));
    assert Clipped(c.size, k, [y]) == [y];
    assert Overlay(x, k, [y]) == x[k := y];
  }

  /** What a resized object is recorded under: as long as the flag is cached, the hash of all that was
      fed to the node before, followed by all of the object. */
  lemma ResizedRecordedUnder(s: Sys, oid: Oid, newSize: int) returns (t: Sys)
    requires TablesOk(s) && Enabled(s, Resize(oid, newSize)) && Usable(s, oid)
    ensures Reaches(s, [Resize(oid, newSize), Mark(oid)], t) && oid in t.busy && t.busy[oid].Marked?
    ensures oid in s.objects && var p := s.objects[oid].place;
            && t.busy[oid].key.hash == s.digest(NodeAt(s.nodes, p).fed + Content(s.bytes, p, newSize))
            && t.busy[oid].key.size == newSize
  {
    HandlerView(s, oid);
    var u := Apply(s, Resize(oid, newSize));
    ResizeIs(s, oid, newSize);
    ForcedInput(u.bytes, u.nodes, View(u, oid));
    t := Apply(u, Mark(oid));
    MarkIs(u, oid);
    ReachesTwo(s, Resize(oid, newSize), u, Mark(oid));
  }

  lemma ReachesTwo(s: Sys, a: Step, s1: Sys, b: Step)
    requires Enabled(s, a) && s1 == Apply(s, a) && Enabled(s1, b)
    ensures Reaches(s, [a, b], Apply(s1, b))
  {
    assert Reaches(s1, [b], Apply(s1, b));
    assert [a, b][1..] == [b];
  }

  lemma ResizeIs(s: Sys, oid: Oid, newSize: int)
    requires Enabled(s, Resize(oid, newSize)) && oid in s.objects
    ensures var u, c := Apply(s, Resize(oid, newSize)), View(s, oid);
            && Open(u, oid) && oid in u.objects && View(u, oid) == EntryResized(c, newSize)
            && View(u, oid).flags == 1 && View(u, oid).size == newSize && View(u, oid).place == c.place
            && u.nodes == s.nodes && u.bytes == s.bytes && u.digest == s.digest
  {
  }

  lemma MarkIs(s: Sys, oid: Oid)
    requires Enabled(s, Mark(oid))
    ensures var t := Apply(s, Mark(oid));
            && oid in t.busy && t.busy[oid].Marked? && t.busy[oid].key.size == View(s, oid).size
            && t.busy[oid].key.hash == s.digest(NodeInput(s.bytes, s.nodes, View(s, oid)))
            && t.busy[oid].entry.place == View(s, oid).place && t.bytes == s.bytes
  {
  }

  /** With the flag set the node digests what it was fed and then the whole object. */
  lemma ForcedInput(bytes: Cell -> Byte, nodes: map<Place, S.HashNode>, c: Cached)
    requires PlaceOk(c.place) && SizeOk(c.size) && c.flags == 1
    ensures NodeInput(bytes, nodes, c) == NodeAt(nodes, c.place).fed + Content(bytes, c.place, c.size)
  {
    S.AlignedRemainder(c.place.beginOffset);
    S.ResumeIsExact(S.Restarted(NodeAt(nodes, c.place), Context(c)), Context(c));
  }

  /** An object written whole and then resized is recorded under the hash of its former content
      followed by its new one. */
  lemma ResizedHash(s: Sys, oid: Oid, x: seq<Byte>, k: nat) returns (t: Sys)
    requires Inv(s) && HashedWhole(s, oid, x, x) && Usable(s, oid) && 0 < k < |x|
    ensures Reaches(s, [Resize(oid, k), Mark(oid)], t) && oid in t.busy && t.busy[oid].Marked?
    ensures t.busy[oid].key.hash == s.digest(x + x[..k]) && t.busy[oid].key.size == k
  {
    HandlerView(s, oid);
    t := ResizedRecordedUnder(s, oid, k);
    FedAndKept(s, oid, x, k);
  }

  lemma FedAndKept(s: Sys, oid: Oid, x: seq<Byte>, k: nat)
    requires HashedWhole(s, oid, x, x) && k < |x| && View(s, oid).place == s.objects[oid].place
    ensures NodeAt(s.nodes, s.objects[oid].place).fed == x
    ensures Content(s.bytes, s.objects[oid].place, k) == x[..k]
  {
    assert Content(s.bytes, s.objects[oid].place, k) == Content(s.bytes, s.objects[oid].place, |x|)[..k];
  }

  /** An object that joins a record with other bytes silently changes its content. */
  lemma JoinChangesContentIff(s: Sys, oid: Oid, w: seq<Byte>)
    requires TablesOk(s) && Enabled(s, Join(oid)) && s.busy[oid].key in s.hashes && Holds(s, oid, w)
    ensures !Holds(Apply(s, Join(oid)), oid, w) <==> Content(s.bytes, s.hashes[s.busy[oid].key].place, |w|) != w
  {
    assert OidOk(s, oid) && PhaseOk(s, oid);
  }

  // ----- deleting an incomplete object ---------------------------------------------------------------

  /** Deleting an incomplete object gives its storage back but leaves its document, which still
      names that storage: the allocator may hand it to another object at once, and a write to
      the deleted object would then change the other one. */
  lemma DiscardLeavesDocument(s: Sys, oid: Oid, other: Oid, pid: nat, b: Byte) returns (t: Sys)
    requires Inv(s) && Enabled(s, Discard(oid)) && Usable(s, oid) && !Taken(s, other) && pid !in s.calls
    requires var c := View(s, oid); s.bytes((c.place.vol, Pos(c.place))) != b
    ensures var c := View(s, oid);
            && Reaches(s, [Discard(oid)] + CreateSteps(pid, other, c.size, c.place), t)
            && Enabled(t, Write(oid, 0, [b])) && other in t.objects && t.objects[other].place == c.place
            && 0 <= c.size && Content(Apply(t, Write(oid, 0, [b])).bytes, c.place, c.size) != Content(t.bytes,
               c.place, c.size)
  {
    HandlerView(s, oid);
    t := DeadRun(s, oid, other, pid, b);
  }

  lemma DeadRun(s: Sys, oid: Oid, other: Oid, pid: nat, b: Byte) returns (t: Sys)
    requires Enabled(s, Discard(oid)) && !Taken(s, other) && pid !in s.calls && oid in s.objects
    requires var c := View(s, oid); PlaceOk(c.place) && SizeOk(c.size) && s.bytes((c.place.vol, Pos(c.place))) != b
    requires View(s, oid) == Decode(s.objects[oid]) || oid in s.cache
    ensures var c := View(s, oid);
            && Reaches(s, [Discard(oid)] + CreateSteps(pid, other, c.size, c.place), t)
            && Enabled(t, Write(oid, 0, [b])) && other in t.objects && t.objects[other].place == c.place
            && 0 <= c.size && Content(Apply(t, Write(oid, 0, [b])).bytes, c.place, c.size) != Content(t.bytes,
               c.place, c.size)
  {
    var c := View(s, oid);
    var s1 := Discarded(s, oid);
    t := CreatedAt(s1, pid, other, c.size, c.place);
    ReachesOn(s, [Discard(oid)], s1, CreateSteps(pid, other, c.size, c.place), t);
    DeadWrite(t, oid, b);
  }

  lemma Discarded(s: Sys, oid: Oid) returns (t: Sys)
    requires Enabled(s, Discard(oid))
    ensures var c := View(s, oid);
            && Reaches(s, [Discard(oid)], t) && t == s.(held := t.held, dead := t.dead)
            && t.held == s.held - Cells(ExtentOf(c.place, c.size))
  {
    t := Apply(s, Discard(oid));
    assert [Discard(oid)][1..] == [];
  }

  lemma CreatedAt(s: Sys, pid: nat, oid: Oid, size: int, p: Place) returns (t: Sys)
    requires pid !in s.calls && !Taken(s, oid) && SizeOk(size) && PlaceOk(p) && Cells(ExtentOf(p, size)) !! s.held
    ensures Reaches(s, CreateSteps(pid, oid, size, p), t)
    ensures t == s.(objects := s.objects[oid := NewDoc(p, size)], making := s.making[oid := Creation(pid)],
                    calls := s.calls[pid := Creating(oid, size, Filled(p))],
                    held := s.held + Cells(ExtentOf(p, size)))
  {
    var s1 := Apply(s, BeginCreate(pid, oid, size));
    var s2 := Apply(s1, Allot(pid, p));
    t := Apply(s2, Fill(pid));
    ReachesThree(s, BeginCreate(pid, oid, size), s1, Allot(pid, p), s2, Fill(pid));
    assert s.bare + {oid} - {oid} == s.bare;
    LastCall(s.calls, pid, Creating(oid, size, Reserved), Creating(oid, size, Allotted(p)),
             Creating(oid, size, Filled(p)));
  }

  lemma LastCall(calls: map<nat, Call>, pid: nat, a: Call, b: Call, c: Call)
    ensures calls[pid := a][pid := b][pid := c] == calls[pid := c]
  {
  }

  lemma DeadWrite(s: Sys, oid: Oid, b: Byte)
    requires Open(s, oid) && PlaceOk(View(s, oid).place) && SizeOk(View(s, oid).size)
    requires s.bytes((View(s, oid).place.vol, Pos(View(s, oid).place))) != b
    ensures Enabled(s, Write(oid, 0, [b]))
    ensures var c := View(s, oid); Content(Apply(s, Write(oid, 0, [b])).bytes, c.place, c.size) != Content(s.bytes,
            c.place, c.size)
  {
    var c := View(s, oid);
    AddressIs(c.place, 0);
    assert Content(s.bytes, c.place, c.size)[0] == s.bytes((c.place.vol, Pos(c.place)));
    assert Content(Apply(s, Write(oid, 0, [b])).bytes, c.place, c.size)[0] == b;
  }

  // ----- what the cache lets a caller see --------------------------------------------------------------

  /** The calls on complete objects look a document up only if it is complete, but take any
      cached entry: the object they find. */
  function Found(s: Sys, oid: Oid): Option<Cached> {
    if oid in s.cache then Some(s.cache[oid])
    else if oid in s.objects && s.objects[oid].complete then Some(Decode(s.objects[oid]))
    else None
  }

  /** Two entries a caller cannot tell apart: the context is not shown. */
  predicate SameAnswer(a: Option<Cached>, b: Option<Cached>) {
    if a.Some? && b.Some? then a.value.(flags := 0) == b.value.(flags := 0) else a == b
  }

  /** Dropping the cached entry changes what such a call finds exactly when the object is cached
      and incomplete. */
  lemma CacheMattersIff(s: Sys, oid: Oid)
    requires TablesOk(s) && oid !in s.busy && oid !in s.stale
    ensures !SameAnswer(Found(Apply(s, Expire(oid)), oid), Found(s, oid)) <==> oid in s.cache && !s.cache[oid].complete
  {
    assert OidOk(s, oid);
    if oid in s.cache { DecodeEncode(s.cache[oid].head); }
  }
}
