/**
 Who owns which byte. Claims are disjoint extents; what no claim covers, below each volume's
 current position, is held by callers.
 */
module Ownership {

  datatype Extent = Extent(vol: int, lo: int, hi: int)

  /** A byte of a volume. */
  type Cell = (int, int)

  ghost predicate In(c: Cell, e: Extent) { c.0 == e.vol && e.lo <= c.1 < e.hi }

  ghost function Cells(e: Extent): iset<Cell> { iset c: Cell | In(c, e) }

  ghost predicate Below(c: Cell, cur: map<int, int>) { c.0 in cur && 0 <= c.1 < cur[c.0] }

  ghost predicate Claimed<K>(c: Cell, claims: map<K, Extent>) { exists k :: k in claims && In(c, claims[k]) }

  /** Every byte below the current position has exactly one owner, and no other has any. */
  ghost predicate Partition<K>(claims: map<K, Extent>, held: iset<Cell>, cur: map<int, int>) {
    && (forall j, k, c: Cell :: j in claims && k in claims && In(c, claims[j]) && In(c, claims[k]) ==> j == k)
    && (forall c: Cell :: Claimed(c, claims) ==> c !in held)
    && (forall c: Cell :: Below(c, cur) <==> c in held || Claimed(c, claims))
  }

  /** A caller gives an extent back. */
  lemma Give<K>(claims: map<K, Extent>, held: iset<Cell>, cur: map<int, int>, k: K, e: Extent)
    requires Partition(claims, held, cur) && k !in claims && Cells(e) <= held
    ensures Partition(claims[k := e], held - Cells(e), cur)
  {
    var new' := claims[k := e];
    forall c: Cell ensures Claimed(c, new') <==> In(c, e) || Claimed(c, claims) {
      if In(c, e) { assert k in new' && In(c, new'[k]); }
      if Claimed(c, claims) { var j :| j in claims && In(c, claims[j]); assert j in new' && In(c, new'[j]); }
    }
    assert forall c: Cell :: In(c, e) ==> c in held;
  }

  /** A claim goes to the caller. */
  lemma Take<K>(claims: map<K, Extent>, held: iset<Cell>, cur: map<int, int>, k: K)
    requires Partition(claims, held, cur) && k in claims
    ensures Partition(claims - {k}, held + Cells(claims[k]), cur)
    ensures Cells(claims[k]) !! held
  {
    var new' := claims - {k};
    forall c: Cell ensures Claimed(c, claims) <==> In(c, claims[k]) || Claimed(c, new') {
      if Claimed(c, claims) {
        var j :| j in claims && In(c, claims[j]);
        assert j != k ==> j in new' && In(c, new'[j]);
      }
      if Claimed(c, new') { var j :| j in new' && In(c, new'[j]); assert In(c, claims[j]); }
    }
  }

  /** Claim `k` absorbs claim `j`, its neighbour. */
  lemma Absorb<K>(claims: map<K, Extent>, held: iset<Cell>, cur: map<int, int>, j: K, k: K, e: Extent)
    requires Partition(claims, held, cur) && j in claims && k in claims && j != k
    requires forall c: Cell :: In(c, e) <==> In(c, claims[j]) || In(c, claims[k])
    ensures Partition((claims - {j})[k := e], held, cur)
  {
    var new' := (claims - {j})[k := e];
    forall c: Cell ensures Claimed(c, claims) <==> Claimed(c, new') {
      if Claimed(c, claims) {
        var i :| i in claims && In(c, claims[i]);
        if i == j || i == k { assert In(c, new'[k]); } else { assert In(c, new'[i]); }
      }
      if Claimed(c, new') {
        var i :| i in new' && In(c, new'[i]);
        assert i != k ==> In(c, claims[i]);
        assert i == k ==> In(c, claims[j]) || In(c, claims[k]);
      }
    }
  }

  /** Claim `j` is divided: `k` gets the part `f`, `j` keeps `e`. */
  lemma Divide<K>(claims: map<K, Extent>, held: iset<Cell>, cur: map<int, int>, j: K, e: Extent, k: K, f: Extent)
    requires Partition(claims, held, cur) && j in claims && k !in claims
    requires forall c: Cell :: In(c, claims[j]) <==> In(c, e) || In(c, f)
    requires forall c: Cell :: !(In(c, e) && In(c, f))
    ensures Partition(claims[j := e][k := f], held, cur)
  {
    var new' := claims[j := e][k := f];
    forall c: Cell ensures Claimed(c, claims) <==> Claimed(c, new') {
      if Claimed(c, claims) {
        var i :| i in claims && In(c, claims[i]);
        if i == j { assert In(c, new'[j]) || In(c, new'[k]); } else { assert In(c, new'[i]); }
      }
      if Claimed(c, new') {
        var i :| i in new' && In(c, new'[i]);
        assert i != j && i != k ==> In(c, claims[i]);
        assert i == j || i == k ==> In(c, claims[j]);
      }
    }
  }

  /** A claim changes its name. */
  lemma Rename<K>(claims: map<K, Extent>, held: iset<Cell>, cur: map<int, int>, j: K, k: K)
    requires Partition(claims, held, cur) && j in claims && k !in claims
    ensures Partition((claims - {j})[k := claims[j]], held, cur)
  {
    var new' := (claims - {j})[k := claims[j]];
    forall c: Cell ensures Claimed(c, claims) <==> Claimed(c, new') {
      if Claimed(c, claims) {
        var i :| i in claims && In(c, claims[i]);
        if i == j { assert In(c, new'[k]); } else { assert In(c, new'[i]); }
      }
      if Claimed(c, new') {
        var i :| i in new' && In(c, new'[i]);
        assert In(c, claims[if i == k then j else i]);
      }
    }
  }

  /** The current position of a volume moves up and the caller gets the bytes passed. */
  lemma Bump<K>(claims: map<K, Extent>, held: iset<Cell>, cur: map<int, int>, next: map<int, int>, e: Extent)
    requires Partition(claims, held, cur) && e.vol in cur && 0 <= cur[e.vol] == e.lo <= e.hi
    requires next == cur[e.vol := e.hi]
    ensures Partition(claims, held + Cells(e), next) && Cells(e) !! held
  {
    forall c: Cell | In(c, e) ensures c !in held && !Claimed(c, claims) { assert !Below(c, cur); }
  }

  // ----- the callers' side -------------------------------------------------------------------

  /** The claims are disjoint and together are exactly what is held. */
  ghost predicate Covers<K>(claims: map<K, Extent>, held: iset<Cell>) {
    && (forall j, k, c: Cell :: j in claims && k in claims && In(c, claims[j]) && In(c, claims[k]) ==> j == k)
    && (forall c: Cell :: c in held <==> Claimed(c, claims))
  }

  lemma CoverMore<K>(claims: map<K, Extent>, held: iset<Cell>, k: K, e: Extent)
    requires Covers(claims, held) && k !in claims && Cells(e) !! held
    ensures Covers(claims[k := e], held + Cells(e))
  {
    var new' := claims[k := e];
    forall c: Cell ensures Claimed(c, new') <==> In(c, e) || Claimed(c, claims) {
      if In(c, e) { assert k in new' && In(c, new'[k]); }
      if Claimed(c, claims) { var j :| j in claims && In(c, claims[j]); assert j in new' && In(c, new'[j]); }
    }
    assert forall c: Cell :: In(c, e) ==> c in Cells(e);
  }

  lemma CoverLess<K>(claims: map<K, Extent>, held: iset<Cell>, k: K)
    requires Covers(claims, held) && k in claims
    ensures Covers(claims - {k}, held - Cells(claims[k])) && Cells(claims[k]) <= held
  {
    var new' := claims - {k};
    forall c: Cell ensures Claimed(c, claims) <==> In(c, claims[k]) || Claimed(c, new') {
      if Claimed(c, claims) {
        var j :| j in claims && In(c, claims[j]);
        assert j != k ==> j in new' && In(c, new'[j]);
      }
      if Claimed(c, new') { var j :| j in new' && In(c, new'[j]); assert In(c, claims[j]); }
    }
    forall c: Cell ensures !(In(c, claims[k]) && Claimed(c, new')) {
      if Claimed(c, new') { var j :| j in new' && In(c, new'[j]); }
    }
  }

  lemma CoverRename<K>(claims: map<K, Extent>, held: iset<Cell>, j: K, k: K)
    requires Covers(claims, held) && j in claims && k !in claims
    ensures Covers((claims - {j})[k := claims[j]], held)
  {
    var new' := (claims - {j})[k := claims[j]];
    forall c: Cell ensures Claimed(c, claims) <==> Claimed(c, new') {
      if Claimed(c, claims) {
        var i :| i in claims && In(c, claims[i]);
        if i == j { assert In(c, new'[k]); } else { assert In(c, new'[i]); }
      }
      if Claimed(c, new') {
        var i :| i in new' && In(c, new'[i]);
        assert In(c, claims[if i == k then j else i]);
      }
    }
  }

  /** Claim `k` keeps `e` and gives up `f`. */
  lemma CoverShrink<K>(claims: map<K, Extent>, held: iset<Cell>, k: K, e: Extent, f: Extent)
    requires Covers(claims, held) && k in claims
    requires forall c: Cell :: In(c, claims[k]) <==> In(c, e) || In(c, f)
    requires forall c: Cell :: !(In(c, e) && In(c, f))
    ensures Covers(claims[k := e], held - Cells(f)) && Cells(f) <= held
  {
    var new' := claims[k := e];
    forall c: Cell ensures Claimed(c, claims) <==> In(c, f) || Claimed(c, new') {
      if Claimed(c, claims) {
        var i :| i in claims && In(c, claims[i]);
        assert i != k ==> In(c, new'[i]);
        assert i == k && In(c, e) ==> In(c, new'[k]);
      }
      if Claimed(c, new') { var i :| i in new' && In(c, new'[i]); assert In(c, claims[i]); }
      if In(c, f) { assert In(c, claims[k]); }
    }
    forall c: Cell, i | i in new' && In(c, f) ensures !In(c, new'[i]) { assert In(c, claims[k]); }
  }
}
