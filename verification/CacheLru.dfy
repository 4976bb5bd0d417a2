/**
 Which nodes an access takes: those that serve its block already, and otherwise the ones that have
 not been used for the longest time.
 */
module CacheLru {
  import opened Layout
  import opened Cipher
  import opened CacheSpec
  import opened CacheInvariant
  import opened CacheAccess

  /** All nodes but `d` and `e` serve the blocks they served, in the same order of use. */
  ghost predicate OthersKept(s: State, t: State, d: Ref, e: Ref)
    requires Shaped(s) && Shaped(t)
  {
    && |t.nodes| == |s.nodes|
    && (forall m: nat :: m < |s.nodes| && Node(m) != d && Node(m) != e ==> t.nodes[m].blk == s.nodes[m].blk)
    && forall m: nat, k: nat {:trigger Rank(t, m), Rank(t, k)} ::
         m < |s.nodes| && k < |s.nodes| && Node(m) != d && Node(m) != e && Node(k) != d && Node(k) != e ==>
           (Rank(s, m) < Rank(s, k) ==> Rank(t, m) < Rank(t, k))
  }

  lemma MoveKeeps(s: State, n: nat, d: Ref, e: Ref)
    requires Shaped(s) && n < |s.nodes| && (d == Node(n) || e == Node(n))
    ensures OthersKept(s, ToFront(s, n), d, e) && ToFront(s, n).order[0] == n
  {
    var t := ToFront(s, n);
    MoveToFrontEnumerates(s.order, |s.nodes|, n);
    forall m: nat, k: nat {:trigger Rank(t, m), Rank(t, k)} |
      m < |s.nodes| && k < |s.nodes| && m != n && k != n && Rank(s, m) < Rank(s, k)
      ensures Rank(t, m) < Rank(t, k)
    {
      MovedBehind(s, n, m, k);
    }
  }

  lemma MovedBehind(s: State, n: nat, m: nat, k: nat)
    requires Shaped(s) && n < |s.nodes| && m < |s.nodes| && k < |s.nodes|
    requires m != n && k != n && Rank(s, m) < Rank(s, k)
    ensures Rank(ToFront(s, n), m) < Rank(ToFront(s, n), k)
  {
    MoveToFrontRank(s.order, |s.nodes|, n, m);
    MoveToFrontRank(s.order, |s.nodes|, n, k);
    DistinctRanks(s, m, n);
    DistinctRanks(s, k, n);
  }

  /** The order is the same, and so are the blocks of all nodes but `d` and `e`. */
  lemma SameOrderKeeps(s: State, t: State, d: Ref, e: Ref)
    requires Shaped(s) && Shaped(t) && t.order == s.order && |t.nodes| == |s.nodes|
    requires forall m: nat :: m < |s.nodes| && Node(m) != d && Node(m) != e ==> t.nodes[m].blk == s.nodes[m].blk
    ensures OthersKept(s, t, d, e)
  {
  }

  lemma KeptOn(s: State, t: State, u: State, d: Ref, e: Ref)
    requires Shaped(s) && Shaped(t) && Shaped(u) && OthersKept(s, t, d, e) && OthersKept(t, u, d, e)
    ensures OthersKept(s, u, d, e)
  {
    forall m: nat, k: nat {:trigger Rank(u, m), Rank(u, k)} |
      && m < |s.nodes| && k < |s.nodes| && Node(m) != d && Node(m) != e && Node(k) != d && Node(k) != e
      && Rank(s, m) < Rank(s, k)
      ensures Rank(u, m) < Rank(u, k)
    {
      assert Rank(t, m) < Rank(t, k);
    }
  }

  lemma PairMoved(s: State, d: nat, e: nat)
    requires Shaped(s) && d < |s.nodes| && e < |s.nodes| && d != e
    ensures var t := ToFront(ToFront(s, d), e);
            OthersKept(s, t, Node(d), Node(e)) && t.order[0] == e && t.order[1] == d
  {
    MoveKeeps(s, d, Node(d), Node(e));
    MoveKeeps(ToFront(s, d), e, Node(d), Node(e));
    KeptOn(s, ToFront(s, d), ToFront(ToFront(s, d), e), Node(d), Node(e));
  }

  /** The access uses plaintext node `d` and ciphertext node `e`, which are the most recently used ones
      afterwards, and no others. */
  ghost predicate Uses(s: State, t: State, b: nat, d: Ref, e: nat)
    requires Shaped(s) && Shaped(t) && b < |t.index|
  {
    && t.index[b].encrypt == Node(e) && t.order[0] == e
    && (d.Node? ==> t.index[b].decrypt == d && t.order[1] == d.id)
    && OthersKept(s, t, d, Node(e))
  }

  lemma UsesBoth(s: State, b: nat)
    requires Inv(s) && b < |s.index| && HasD(s, b) && HasE(s, b)
    ensures Uses(s, GetNode(s, b, true), b, s.index[b].decrypt, s.index[b].encrypt.id)
  {
    DNeedsE(s, b);
    BothShape(s, b);
    var d, e := s.index[b].decrypt.id, s.index[b].encrypt.id;
    assert PairOk(s, b);
    var t := ToFront(ToFront(s, d), e);
    PairMoved(s, d, e);
    PairMoved(t, d, e);
    KeptOn(s, t, ToFront(ToFront(t, d), e), Node(d), Node(e));
  }

  lemma FlushSameBlks(s: State, n: nat)
    requires Shaped(s) && n < |s.nodes|
    ensures forall m :: 0 <= m < |s.nodes| ==> FlushIfUpdated(s, n).nodes[m].blk == s.nodes[m].blk
  {
  }

  lemma FlushMoved(s: State, n: nat, d: Ref, e: Ref)
    requires Shaped(s) && n < |s.nodes| && (d == Node(n) || e == Node(n))
    ensures var t := ToFront(FlushIfUpdated(s, n), n);
            OthersKept(s, t, d, e) && t.order[0] == n && (s.order[0] != n ==> t.order[1] == s.order[0])
  {
    var f := FlushIfUpdated(s, n);
    FlushSameBlks(s, n);
    SameOrderKeeps(s, f, d, e);
    MoveKeeps(f, n, d, e);
    KeptOn(s, f, ToFront(f, n), d, e);
  }

  lemma UsesOnlyE(s: State, b: nat, e: nat)
    requires Inv(s) && b < |s.index| && ECachedOnly(s, b, e)
    ensures Uses(s, GetNode(s, b, true), b, Node(Oldest(ToFront(s, e))), e)
  {
    OnlyEShape(s, b, e);
    var x := Oldest(ToFront(s, e));
    var q := OnlyEMoved(s, x, e);
    InstalledD(q, b, x, e);
    KeptOn(s, q, GetNode(s, b, true), Node(x), Node(e));
  }

  /** Where the nodes are once both have been claimed. */
  lemma OnlyEMoved(s: State, x: nat, e: nat) returns (q: State)
    requires Shaped(s) && e < |s.nodes| && x < |s.nodes| && x != e
    ensures q == ToFront(ToFront(FlushIfUpdated(ToFront(s, e), x), x), e) && q.index == s.index
    ensures OthersKept(s, q, Node(x), Node(e)) && q.order[0] == e && q.order[1] == x
  {
    var s1 := ToFront(s, e);
    var w := ToFront(FlushIfUpdated(s1, x), x);
    q := ToFront(w, e);
    MoveKeeps(s, e, Node(x), Node(e));
    FlushMoved(s1, x, Node(x), Node(e));
    MoveKeeps(w, e, Node(x), Node(e));
    KeptOn(s, s1, w, Node(x), Node(e));
    KeptOn(s, w, q, Node(x), Node(e));
  }

  lemma InstalledD(q: State, b: nat, x: nat, e: nat)
    requires Shaped(q) && b < |q.index| && x < |q.nodes| && e < |q.nodes| && x != e && q.index[b].encrypt == Node(e)
    ensures var t := InstallD(FlushIfUpdated(Release(q, x), e), b, x);
            t.order == q.order && t.index[b] == Pair(Node(e), Node(x)) && OthersKept(q, t, Node(x), Node(e))
  {
    FlushSameBlks(Release(q, x), e);
    SameOrderKeeps(q, InstallD(FlushIfUpdated(Release(q, x), e), b, x), Node(x), Node(e));
  }

  lemma UsesNothing(s: State, b: nat)
    requires Inv(s) && b < |s.index| && Uncached(s, b)
    ensures Uses(s, GetNode(s, b, true), b, Node(Oldest(s)), Oldest(ToFront(s, Oldest(s))))
  {
    NothingShape(s, b);
    OldestAfterFlush(s, Oldest(s));
    var x, y := Oldest(s), Oldest(ToFront(s, Oldest(s)));
    var q := NothingMoved(s, x, y);
    InstalledPair(q, b, x, y);
    KeptOn(s, q, GetNode(s, b, true), Node(x), Node(y));
  }

  lemma OldestAfterFlush(s: State, x: nat)
    requires Shaped(s) && x < |s.nodes|
    ensures Oldest(ToFront(FlushIfUpdated(s, x), x)) == Oldest(ToFront(s, x))
  {
    var f := FlushIfUpdated(s, x);
    assert f.order == s.order;
    assert ToFront(f, x).order == MoveToFront(f.order, x);
  }

  lemma NothingMoved(s: State, x: nat, y: nat) returns (q: State)
    requires Shaped(s) && x < |s.nodes| && y < |s.nodes| && x != y
    ensures q == ToFront(FlushIfUpdated(ToFront(FlushIfUpdated(s, x), x), y), y)
    ensures OthersKept(s, q, Node(x), Node(y)) && q.order[0] == y && q.order[1] == x && |q.index| == |s.index|
  {
    var s3 := ToFront(FlushIfUpdated(s, x), x);
    q := ToFront(FlushIfUpdated(s3, y), y);
    FlushMoved(s, x, Node(x), Node(y));
    FlushMoved(s3, y, Node(x), Node(y));
    KeptOn(s, s3, q, Node(x), Node(y));
  }

  lemma InstalledPair(q: State, b: nat, x: nat, y: nat)
    requires Shaped(q) && b < |q.index| && x < |q.nodes| && y < |q.nodes| && x != y
    ensures var t := InstallPair(Release(Release(q, x), y), b, x, y);
            t.order == q.order && t.index[b] == Pair(Node(y), Node(x)) && OthersKept(q, t, Node(x), Node(y))
  {
    SameOrderKeeps(q, InstallPair(Release(Release(q, x), y), b, x, y), Node(x), Node(y));
  }

  lemma UsesOneE(s: State, b: nat)
    requires Inv(s) && b < |s.index| && Uncached(s, b)
    ensures Uses(s, GetNode(s, b, false), b, Null, Oldest(s))
  {
    UncachedShape(s, b);
    var y := Oldest(s);
    var f := FlushIfUpdated(s, y);
    FlushSameBlks(s, y);
    SameOrderKeeps(s, Release(f, y), Null, Node(y));
    MoveKeeps(Release(f, y), y, Null, Node(y));
    SameOrderKeeps(Evict(s), InstallE(Evict(s), b, y), Null, Node(y));
    KeptOn(s, Release(f, y), Evict(s), Null, Node(y));
    KeptOn(s, Evict(s), InstallE(Evict(s), b, y), Null, Node(y));
  }

  lemma UsesCachedE(s: State, b: nat, e: nat)
    requires Inv(s) && b < |s.index| && HasE(s, b) && s.index[b].encrypt == Node(e)
    ensures Uses(s, GetNode(s, b, false), b, Null, e)
  {
    assert PairOk(s, b);
    ReadsCachedShape(s, b, e);
    var s1 := ToFront(s, e);
    var s2, t := ToFront(s1, e), GetCacheIndex(s, b, false);
    MoveKeeps(s, e, Null, Node(e));
    MoveKeeps(s1, e, Null, Node(e));
    KeptOn(s, s1, s2, Null, Node(e));
    LoadSameBlks(t, b);
    SameOrderKeeps(s2, Load(t, b, false), Null, Node(e));
    KeptOn(s, s2, Load(t, b, false), Null, Node(e));
  }

  lemma LoadSameBlks(s: State, b: nat)
    requires Shaped(s) && b < |s.index| && s.index[b].encrypt.Node?
    ensures var t := Load(s, b, false);
            t.order == s.order && forall m :: 0 <= m < |s.nodes| ==> t.nodes[m].blk == s.nodes[m].blk
  {
  }

  /** An access uses the nodes its block is cached in. For one that is missing it takes the node that
      has not been used for the longest time, and no other node than these serves another block
      afterwards or changes its place among the others. */
  lemma OldestIsTaken(s: State, b: nat, decrypt: bool)
    requires Inv(s) && b < |s.index|
    ensures var t, n := GetNode(s, b, decrypt), |s.nodes|;
            var last := s.order[n - 1];
            && (HasE(s, b) && !decrypt ==> Uses(s, t, b, Null, s.index[b].encrypt.id))
            && (!HasE(s, b) && !decrypt ==> Uses(s, t, b, Null, last))
            && (HasD(s, b) && decrypt ==> HasE(s, b) && Uses(s, t, b, s.index[b].decrypt, s.index[b].encrypt.id))
            && (HasE(s, b) && !HasD(s, b) && decrypt ==>
                 var e := s.index[b].encrypt.id;
                 Uses(s, t, b, Node(if last == e then s.order[n - 2] else last), e))
            && (!HasE(s, b) && decrypt ==> Uses(s, t, b, Node(last), s.order[n - 2]))
  {
    if HasD(s, b) { DNeedsE(s, b); }
    if HasE(s, b) {
      var e := s.index[b].encrypt.id;
      if !decrypt { UsesCachedE(s, b, e); } else if HasD(s, b) { UsesBoth(s, b); } else {
        SecondOldest(s, e);
        UsesOnlyE(s, b, e);
      }
    } else {
      SecondOldest(s, Oldest(s));
      if decrypt { UsesNothing(s, b); } else { UsesOneE(s, b); }
    }
  }

  lemma SecondOldest(s: State, n: nat)
    requires Shaped(s) && n < |s.nodes|
    ensures var last := s.order[|s.nodes| - 1];
            Oldest(ToFront(s, n)) == if last == n then s.order[|s.nodes| - 2] else last
  {
    MoveToFrontEnumerates(s.order, |s.nodes|, n);
  }
}
