/** What the object layer promises over every interleaving of its calls. */
module ObjectRuns {
  import opened Layout
  import opened Ownership
  import opened HexCodec
  import opened ObjectSpec
  import opened ObjectProof

  /** The code can take every step, and the clients are careful. */
  ghost predicate IsRun(states: seq<Sys>, steps: seq<Step>) {
    && |states| == |steps| + 1
    && forall i :: 0 <= i < |steps| ==>
         Enabled(states[i], steps[i]) && Polite(states[i], steps[i]) && states[i + 1] == Apply(states[i], steps[i])
  }

  lemma {:induction false} RunKeeps(states: seq<Sys>, steps: seq<Step>, i: nat)
    requires IsRun(states, steps) && Inv(states[0]) && i < |states|
    ensures Inv(states[i])
  {
    if i > 0 {
      RunKeeps(states, steps, i - 1);
      StepKeeps(states[i - 1], steps[i - 1]);
    }
  }

  /** A service with no object is a good state, whatever the volumes and the nodes contain. */
  ghost function Nothing(digest: seq<Byte> -> string, bytes: Cell -> Byte, nodes: map<Place, S.HashNode>): Sys {
    Sys(digest, map[], {}, map[], map[], map[], map[], bytes, nodes, iset{}, map[], {}, {})
  }

  lemma EmptyIsGood(digest: seq<Byte> -> string, bytes: Cell -> Byte, nodes: map<Place, S.HashNode>)
    ensures Inv(Nothing(digest, bytes, nodes))
  {
  }

  lemma AddressIs(p: Place, offset: int)
    requires PlaceOk(p) && 0 <= offset
    ensures Pos(Address(p, offset)) == Pos(p) + offset && Address(p, offset).vol == p.vol
  {
    ByteAddress(p.beginIndex, p.beginOffset, offset);
  }

  // ----- which bytes change ---------------------------------------------------------------------

  /** A careful client's handler finds what the object table says, and the object owns its storage. */
  lemma HandlerView(s: Sys, oid: Oid)
    requires TablesOk(s) && Open(s, oid) && Usable(s, oid)
    ensures oid in s.objects && Agrees(View(s, oid), s.objects[oid]) && DocOk(s.objects[oid])
            && IsOwner(s, OfObject(oid))
  {
    assert OidOk(s, oid);
    ViewAgrees(s, oid);
  }

  /** A write changes only bytes of the open object it names. */
  lemma WriteStaysInside(s: Sys, oid: Oid, offset: int, data: seq<Byte>, c: Cell)
    requires Inv(s) && Enabled(s, Write(oid, offset, data)) && Usable(s, oid)
    ensures Apply(s, Write(oid, offset, data)).bytes(c) != s.bytes(c) ==>
              IsOwner(s, OfObject(oid)) && In(c, OwnedBy(s, OfObject(oid)))
  {
    HandlerView(s, oid);
    AlignUp(s.objects[oid].size);
    AddressIs(s.objects[oid].place, offset);
  }

  /** Only writes change bytes. */
  lemma OthersWriteNothing(s: Sys, t: Step)
    requires Enabled(s, t) && !t.Write?
    ensures Apply(s, t).bytes == s.bytes
  {
  }

  /** The bytes of every owner but the object being written stay. */
  lemma OwnedBytesStay(s: Sys, t: Step, k: Owner, c: Cell)
    requires Inv(s) && Enabled(s, t) && Polite(s, t) && IsOwner(s, k) && In(c, OwnedBy(s, k))
             && !(t.Write? && k == OfObject(t.oid))
    ensures Apply(s, t).bytes(c) == s.bytes(c)
  {
    if t.Write? {
      var j := OfObject(t.oid);
      WriteStaysInside(s, t.oid, t.offset, t.data, c);
      assert IsOwner(s, j) && In(c, OwnedBy(s, j)) ==> In(c, Claims(s)[k]) && In(c, Claims(s)[j]);
    } else {
      OthersWriteNothing(s, t);
    }
  }

  lemma ContentStays(s: Sys, t: Step, k: Owner, p: Place, size: int)
    requires Inv(s) && Enabled(s, t) && Polite(s, t) && IsOwner(s, k) && 0 <= size
             && OwnedBy(s, k) == ExtentOf(p, size) && !(t.Write? && k == OfObject(t.oid))
    ensures Content(Apply(s, t).bytes, p, size) == Content(s.bytes, p, size)
  {
    var u := Apply(s, t);
    forall c | In(c, ExtentOf(p, size)) ensures u.bytes(c) == s.bytes(c) { OwnedBytesStay(s, t, k, c); }
    SameContent(s.bytes, u.bytes, p, size);
  }

  lemma SameContent(before: Cell -> Byte, after: Cell -> Byte, p: Place, size: int)
    requires 0 <= size && forall c :: In(c, ExtentOf(p, size)) ==> after(c) == before(c)
    ensures Content(after, p, size) == Content(before, p, size)
  {
    AlignUp(size);
    forall i | 0 <= i < size ensures Content(after, p, size)[i] == Content(before, p, size)[i] {
      assert In((p.vol, Pos(p) + i), ExtentOf(p, size));
    }
  }

  // ----- records are for ever ----------------------------------------------------------------------

  /** The record of `key` is still there, at its place, with the same bytes. */
  ghost predicate RecordSame(s: Sys, t: Sys, key: Key) {
    && key in s.hashes && key in t.hashes && SizeOk(key.size)
    && t.hashes[key].place == s.hashes[key].place && t.hashes[key].everCount >= s.hashes[key].everCount
    && Content(t.bytes, s.hashes[key].place, key.size) == Content(s.bytes, s.hashes[key].place, key.size)
  }

  lemma RecordStep(s: Sys, t: Step, key: Key)
    requires Inv(s) && Enabled(s, t) && Polite(s, t) && key in s.hashes
    ensures RecordSame(s, Apply(s, t), key)
  {
    assert RecordOk(key, s.hashes[key]);
    StepGrows(s, t);
    assert RecordGrows(s, Apply(s, t), key);
    ContentStays(s, t, OfRecord(key), s.hashes[key].place, key.size);
  }

  ghost predicate RecordKeptAt(states: seq<Sys>, k: nat, key: Key)
    requires k + 1 < |states|
  {
    key in states[k].hashes ==> RecordSame(states[k], states[k + 1], key)
  }

  lemma RecordKeptAlways(states: seq<Sys>, steps: seq<Step>, key: Key)
    requires IsRun(states, steps) && Inv(states[0])
    ensures forall k: nat :: k + 1 < |states| ==> RecordKeptAt(states, k, key)
  {
    forall k: nat | k + 1 < |states| ensures RecordKeptAt(states, k, key) {
      RunKeeps(states, steps, k);
      if key in states[k].hashes { RecordStep(states[k], steps[k], key); }
    }
  }

  lemma {:induction false} RecordCarried(states: seq<Sys>, i: nat, j: nat, key: Key)
    requires i <= j < |states| && key in states[i].hashes && SizeOk(key.size)
    requires forall k: nat :: k + 1 < |states| ==> RecordKeptAt(states, k, key)
    ensures RecordSame(states[i], states[j], key)
  {
    if i < j {
      RecordCarried(states, i, j - 1, key);
      assert RecordKeptAt(states, j - 1, key);
    }
  }

  /** Neither the place of a record nor the bytes there ever change, and its storage is never
      given back, even when no object refers to it. */
  lemma RecordForever(states: seq<Sys>, steps: seq<Step>, i: nat, j: nat, key: Key)
    requires IsRun(states, steps) && Inv(states[0]) && i <= j < |states| && key in states[i].hashes
    ensures RecordSame(states[i], states[j], key)
    ensures Cells(ExtentOf(states[i].hashes[key].place, key.size)) <= states[j].held
  {
    assert RecordOk(key, states[i].hashes[key]) by { RunKeeps(states, steps, i); }
    RecordKeptAlways(states, steps, key);
    RecordCarried(states, i, j, key);
    assert Owned(states[j]) by { RunKeeps(states, steps, j); }
    RecordHeld(states[j], key);
  }

  lemma RecordHeld(s: Sys, key: Key)
    requires Owned(s) && key in s.hashes
    ensures Cells(ExtentOf(s.hashes[key].place, key.size)) <= s.held
  {
    assert IsOwner(s, OfRecord(key));
    forall c | c in Cells(ExtentOf(s.hashes[key].place, key.size)) ensures c in s.held {
      assert In(c, Claims(s)[OfRecord(key)]);
    }
  }

  // ----- completed objects do not change ----------------------------------------------------------

  /** Completed, and no call holds its lock. */
  ghost predicate Finished(s: Sys, oid: Oid) { oid in s.objects && s.objects[oid].complete && oid !in s.busy }

  lemma FinishedStays(s: Sys, t: Step, oid: Oid)
    requires TablesOk(s) && Enabled(s, t) && Finished(s, oid) && t != Unlink(oid)
    ensures Finished(Apply(s, t), oid) && Apply(s, t).objects[oid] == s.objects[oid]
  {
    assert OidOk(s, oid);
    if oid != Target(s, t) { StepLocal(s, t, oid); } else { FinishedTarget(s, t); }
  }

  lemma FinishedTarget(s: Sys, t: Step)
    requires Enabled(s, t) && Finished(s, Target(s, t)) && t != Unlink(Target(s, t))
    requires OidOk(s, Target(s, t)) && (IsCallStep(t) && t.pid in s.calls ==> CallOk(s, t.pid))
    ensures Finished(Apply(s, t), Target(s, t)) && Apply(s, t).objects[Target(s, t)] == s.objects[Target(s, t)]
  {
    if t.Write? || t.Resize? || t.Mark? || t.Discard? { ViewAgrees(s, t.oid); }
  }

  lemma {:induction false} FinishedForever(states: seq<Sys>, steps: seq<Step>, i: nat, j: nat, oid: Oid)
    requires IsRun(states, steps) && Inv(states[0]) && i <= j < |states| && Finished(states[i], oid)
    requires forall k :: i <= k < j ==> steps[k] != Unlink(oid)
    ensures Finished(states[j], oid) && states[j].objects[oid] == states[i].objects[oid]
  {
    if i < j {
      FinishedForever(states, steps, i, j - 1, oid);
      assert TablesOk(states[j - 1]) by { RunKeeps(states, steps, j - 1); }
      FinishedStays(states[j - 1], steps[j - 1], oid);
    }
  }

  datatype ReadReply = ReadParamError | ReadNotFound | ReadIncompleted | ReadData(data: seq<Byte>, cut: bool)

  /** The reply for the object `c`: the requested bytes, cut at its end. */
  ghost function ReplyFor(bytes: Cell -> Byte, c: Cached, size: int, offset: int): ReadReply
    requires 0 <= offset
  {
    if offset >= c.size then ReadParamError
    else if !c.complete then ReadIncompleted
    else if size < 1 then ReadParamError
    else ReadData(Content(bytes, Address(c.place, offset), Min(c.size - offset, size)), offset + size > c.size)
  }

  ghost function Read(s: Sys, oid: Oid, size: int, offset: int): ReadReply {
    if offset < 0 || size > CHIP_MAX_SIZE || size < 0 then ReadParamError
    else if oid !in s.cache && !(oid in s.objects && s.objects[oid].complete) then ReadNotFound
    else ReplyFor(s.bytes, View(s, oid), size, offset)
  }

  /** What a reader gets of an object with these contents: the bytes from `offset` on, as many as
      asked for and there are. */
  function Excerpt(content: seq<Byte>, size: int, offset: int): ReadReply {
    if 0 <= offset < |content| && 0 < size <= CHIP_MAX_SIZE then
      ReadData(content[offset..offset + Min(|content| - offset, size)], offset + size > |content|)
    else ReadParamError
  }

  /** Byte for byte: an excerpt has the bytes from `offset` on, as many as asked for and there are. */
  lemma ExcerptIs(content: seq<Byte>, size: int, offset: int)
    ensures var r := Excerpt(content, size, offset);
            if 0 <= offset < |content| && 0 < size <= CHIP_MAX_SIZE then
              && r.ReadData? && |r.data| == (if offset + size > |content| then |content| - offset else size)
              && (forall n :: 0 <= n < |r.data| ==> r.data[n] == content[offset + n])
              && (r.cut <==> offset + size > |content|)
            else r == ReadParamError
  {
  }

  /** When a read is refused: nothing is found, or what is found is incomplete, or too short. */
  lemma ReadRefusedIff(s: Sys, oid: Oid, size: int, offset: int)
    ensures var r, inRange := Read(s, oid, size, offset), 0 <= offset && 0 <= size <= CHIP_MAX_SIZE;
            var cached, stored := oid in s.cache, oid in s.objects && s.objects[oid].complete;
            && (r == ReadNotFound <==> inRange && !cached && !stored)
            && (r == ReadIncompleted <==> inRange && cached && !s.cache[oid].complete && offset < s.cache[oid].size)
            && (r.ReadData? <==>
                  && inRange && 0 < size
                  && if cached then s.cache[oid].complete && offset < s.cache[oid].size
                     else stored && offset < s.objects[oid].size)
  {
  }

  /** A finished object reads as an excerpt of its bytes, cached or not. */
  lemma ReadIsContent(s: Sys, oid: Oid, size: int, offset: int)
    requires Inv(s) && Finished(s, oid)
    ensures var d := s.objects[oid];
            SizeOk(d.size) && Read(s, oid, size, offset) == Excerpt(Content(s.bytes, d.place, d.size), size, offset)
  {
    var d := s.objects[oid];
    assert OidOk(s, oid) && DocOk(d);
    ViewAgrees(s, oid);
    if 0 <= offset < d.size && 0 < size <= CHIP_MAX_SIZE { ReplyIsContent(s.bytes, View(s, oid), size, offset); }
  }

  lemma ReplyIsContent(bytes: Cell -> Byte, c: Cached, size: int, offset: int)
    requires PlaceOk(c.place) && SizeOk(c.size) && c.complete && 0 <= offset < c.size && 0 < size
    ensures var n := Min(c.size - offset, size);
            ReplyFor(bytes, c, size, offset)
                == ReadData(Content(bytes, c.place, c.size)[offset..offset + n], offset + size > c.size)
  {
    ContentAt(bytes, c.place, c.size, offset, Min(c.size - offset, size));
  }

  lemma ContentAt(bytes: Cell -> Byte, p: Place, size: int, offset: int, n: int)
    requires PlaceOk(p) && 0 <= offset && 0 <= n && offset + n <= size
    ensures Content(bytes, Address(p, offset), n) == Content(bytes, p, size)[offset..offset + n]
  {
    AddressIs(p, offset);
    ShiftedContent(bytes, p, size, Address(p, offset), offset, n);
  }

  lemma ShiftedContent(bytes: Cell -> Byte, p: Place, size: int, q: Place, offset: int, n: int)
    requires 0 <= offset && 0 <= n && offset + n <= size && q.vol == p.vol && Pos(q) == Pos(p) + offset
    ensures Content(bytes, q, n) == Content(bytes, p, size)[offset..offset + n]
  {
    var a, b := Content(bytes, q, n), Content(bytes, p, size);
    forall i | 0 <= i < n ensures a[i] == b[offset + i] { }
  }

  /** The bytes of a finished object stay the same over any run that does not delete it. */
  lemma CompletedContentStays(states: seq<Sys>, steps: seq<Step>, i: nat, j: nat, oid: Oid)
    requires IsRun(states, steps) && Inv(states[0]) && i <= j < |states| && Finished(states[i], oid)
    requires forall k :: i <= k < j ==> steps[k] != Unlink(oid)
    ensures Finished(states[j], oid) && states[j].objects[oid] == states[i].objects[oid]
    ensures var d := states[i].objects[oid];
            SizeOk(d.size) && Content(states[j].bytes, d.place, d.size) == Content(states[i].bytes, d.place, d.size)
  {
    FinishedForever(states, steps, i, j, oid);
    RunKeeps(states, steps, i);
    assert OidOk(states[i], oid);
    RecordForever(states, steps, i, j, KeyOf(states[i].objects[oid]));
  }

  /** Every read of a finished object gives the same reply until the object is deleted. */
  lemma CompletedReadsStay(states: seq<Sys>, steps: seq<Step>, i: nat, j: nat, oid: Oid, size: int, offset: int)
    requires IsRun(states, steps) && Inv(states[0]) && i <= j < |states| && Finished(states[i], oid)
    requires forall k :: i <= k < j ==> steps[k] != Unlink(oid)
    ensures Read(states[j], oid, size, offset) == Read(states[i], oid, size, offset)
  {
    CompletedContentStays(states, steps, i, j, oid);
    RunKeeps(states, steps, i);
    RunKeeps(states, steps, j);
    ReadIsContent(states[i], oid, size, offset);
    ReadIsContent(states[j], oid, size, offset);
  }

  // ----- one record per content -----------------------------------------------------------------

  /** The completer sees `_RefCount` 1 exactly when it makes the record; all others see more. */
  lemma JoinIsFirstIff(s: Sys, oid: Oid)
    requires TablesOk(s) && Enabled(s, Join(oid))
    ensures var key := s.busy[oid].key;
            var u := Apply(s, Join(oid));
            && (u.hashes[key].everCount == 1 <==> key !in s.hashes)
            && u.busy[oid].Joined? && u.busy[oid].key == key && (u.busy[oid].first <==> key !in s.hashes)
  {
    var key := s.busy[oid].key;
    assert key in s.hashes ==> RecordOk(key, s.hashes[key]);
  }

  /** Over any run at most one completer of a key is the first. */
  lemma OneFirst(states: seq<Sys>, steps: seq<Step>, i: nat, j: nat, oid: Oid, other: Oid)
    requires IsRun(states, steps) && Inv(states[0]) && i < j < |steps|
    requires steps[i] == Join(oid) && steps[j] == Join(other) && states[i].busy[oid].key == states[j].busy[other].key
    ensures states[j + 1].busy[other].Joined? && !states[j + 1].busy[other].first
    ensures states[j + 1].hashes[states[j].busy[other].key].everCount > 1
  {
    var key := states[i].busy[oid].key;
    assert key in states[i + 1].hashes;
    RecordForever(states, steps, i + 1, j, key);
    RunKeeps(states, steps, j);
    JoinIsFirstIff(states[j], other);
    assert RecordOk(key, states[j].hashes[key]);
  }

  lemma NoNewRecord(s: Sys, t: Step)
    requires Enabled(s, t) && !t.Join?
    ensures Apply(s, t).hashes.Keys == s.hashes.Keys
  {
    if !Counting(t) { UncountingSame(s, t); }
  }

  /** Step `k` is the completion that makes the record of `key`, and its call learns that it is the first. */
  ghost predicate JoinsFirst(states: seq<Sys>, steps: seq<Step>, k: nat, key: Key)
    requires k < |steps| && k + 1 < |states|
  {
    && steps[k].Join? && steps[k].oid in states[k].busy && states[k].busy[steps[k].oid].key == key
    && IsFirstJoined(states[k + 1], steps[k].oid)
  }

  predicate IsFirstJoined(s: Sys, oid: Oid) { oid in s.busy && s.busy[oid].Joined? && s.busy[oid].first }

  lemma MakesRecord(s: Sys, t: Step, key: Key)
    requires TablesOk(s) && Enabled(s, t) && key !in s.hashes && key in Apply(s, t).hashes
    ensures t.Join? && s.busy[t.oid].key == key && IsFirstJoined(Apply(s, t), t.oid)
  {
    if t.Join? { JoinIsFirstIff(s, t.oid); } else { NoNewRecord(s, t); }
  }

  /** If step `k` makes the record of `key`, it is a first completion. */
  ghost predicate MakesAt(states: seq<Sys>, steps: seq<Step>, k: nat, key: Key)
    requires k < |steps| && k + 1 < |states|
  {
    key !in states[k].hashes && key in states[k + 1].hashes ==> JoinsFirst(states, steps, k, key)
  }

  lemma MakesAlways(states: seq<Sys>, steps: seq<Step>, key: Key)
    requires IsRun(states, steps) && Inv(states[0])
    ensures forall k: nat :: k < |steps| ==> MakesAt(states, steps, k, key)
  {
    forall k: nat | k < |steps| ensures MakesAt(states, steps, k, key) {
      RunKeeps(states, steps, k);
      if key !in states[k].hashes && key in states[k + 1].hashes { MakesRecord(states[k], steps[k], key); }
    }
  }

  /** A record that is there has been made by a completion that was the first. */
  lemma {:induction false} SomeFirst(states: seq<Sys>, steps: seq<Step>, j: nat, key: Key) returns (k: nat)
    requires j < |states| == |steps| + 1 && forall i: nat :: i < |steps| ==> MakesAt(states, steps, i, key)
    requires key !in states[0].hashes && key in states[j].hashes
    ensures k < j && JoinsFirst(states, steps, k, key)
  {
    if key in states[j - 1].hashes {
      k := SomeFirst(states, steps, j - 1, key);
    } else {
      k := j - 1;
      assert MakesAt(states, steps, k, key);
    }
  }

  lemma FirstsInOrder(states: seq<Sys>, steps: seq<Step>, i: nat, j: nat, key: Key)
    requires IsRun(states, steps) && Inv(states[0]) && i < j < |steps|
    ensures !(JoinsFirst(states, steps, i, key) && JoinsFirst(states, steps, j, key))
  {
    if JoinsFirst(states, steps, i, key) && JoinsFirst(states, steps, j, key) {
      OneFirst(states, steps, i, j, steps[i].oid, steps[j].oid);
    }
  }

  /** Every record that appears during a run has exactly one completer that was the first. */
  lemma ExactlyOneFirst(states: seq<Sys>, steps: seq<Step>, j: nat, key: Key)
    requires IsRun(states, steps) && Inv(states[0]) && j < |states|
    requires key !in states[0].hashes && key in states[j].hashes
    ensures exists k: nat :: k < j && JoinsFirst(states, steps, k, key)
    ensures forall i: nat, k: nat ::
              i < |steps| && k < |steps| && JoinsFirst(states, steps, i, key) && JoinsFirst(states, steps, k, key) ==>
                i == k
  {
    MakesAlways(states, steps, key);
    var first := SomeFirst(states, steps, j, key);
    forall i: nat, k: nat | i < k < |steps|
      ensures !(JoinsFirst(states, steps, i, key) && JoinsFirst(states, steps, k, key))
    {
      FirstsInOrder(states, steps, i, k, key);
    }
  }

  lemma {:induction false} ByObjectCount(oids: set<Oid>)
    ensures |set oid | oid in oids :: ByObject(oid)| == |oids|
  {
    if oids == {} {
      assert (set oid | oid in oids :: ByObject(oid)) == {};
    } else {
      var x :| x in oids;
      ByObjectCount(oids - {x});
      assert (set oid | oid in oids :: ByObject(oid)) == (set oid | oid in oids - {x} :: ByObject(oid)) + {ByObject(x)};
    }
  }

  function WithKey(objects: map<Oid, Doc>, key: Key): set<Oid> {
    set oid | oid in objects && objects[oid].complete && KeyOf(objects[oid]) == key
  }

  /** With no call in flight, a record counts exactly the complete objects with its key. */
  lemma CountIsObjects(s: Sys, key: Key)
    requires Inv(s) && s.busy == map[] && s.calls == map[] && key in s.hashes
    ensures s.hashes[key].refCount == |WithKey(s.objects, key)|
  {
    var oids := WithKey(s.objects, key);
    ByObjectCount(oids);
    assert Referrers(s, key) == set oid | oid in oids :: ByObject(oid);
  }
}
