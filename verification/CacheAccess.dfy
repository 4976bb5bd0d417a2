/**
 One access, in every case, keeps the invariant and the logical content of all blocks.
 */
module CacheAccess {
  import opened Layout
  import opened Cipher
  import opened CacheSpec
  import opened CacheInvariant

  // ----- both nodes cached -------------------------------------------------------------

  lemma PairFrontKeeps(s: State, b: nat)
    requires Inv(s) && b < |s.index| && HasD(s, b) && HasE(s, b)
    ensures var d, e := s.index[b].decrypt.id, s.index[b].encrypt.id;
            Inv(ToFront(ToFront(s, d), e)) && SamePlain(s, ToFront(ToFront(s, d), e))
  {
    DNeedsE(s, b);
    var d, e := s.index[b].decrypt.id, s.index[b].encrypt.id;
    var t := ToFront(ToFront(s, d), e);
    assert NodeOk(s, d);
    forall m: nat | m < |t.nodes| ensures NodeOk(t, m) {
      assert NodeOk(s, m);
      TwoMoves(s, d, e, m);
      if s.nodes[m].enc.Node? { TwoMoves(s, d, e, s.nodes[m].enc.id); }
    }
    forall a: nat | a < |t.index| ensures PairOk(t, a) && BlockKept(s, t, a) { assert PairOk(s, a); }
  }

  lemma TwoMoves(s: State, d: nat, e: nat, m: nat)
    requires Shaped(s) && d < |s.nodes| && e < |s.nodes| && m < |s.nodes| && Rank(s, e) < Rank(s, d)
    ensures Rank(ToFront(ToFront(s, d), e), m) ==
            if m == e then 0 else if m == d then 1
            else Rank(s, m) + (if Rank(s, m) < Rank(s, d) then 1 else 0) + (if Rank(s, m) < Rank(s, e) then 1 else 0)
  {
    var t := ToFront(s, d);
    MoveToFrontRank(s.order, |s.nodes|, d, m);
    MoveToFrontRank(s.order, |s.nodes|, d, e);
    MoveToFrontRank(t.order, |t.nodes|, e, m);
    if m != e && m != d { DistinctRanks(s, m, e); }
  }

  lemma DistinctRanks(s: State, m: nat, n: nat)
    requires Shaped(s) && m < |s.nodes| && n < |s.nodes| && m != n
    ensures Rank(s, m) != Rank(s, n)
  {
  }

  /** What every access leaves behind. A ciphertext access ends with a current ciphertext. */
  ghost predicate Accessed(s: State, t: State, b: nat, decrypt: bool)
    requires Shaped(s) && b < |s.index|
  {
    && Inv(t) && SamePlain(s, t) && HasE(t, b) && (decrypt ==> HasD(t, b))
    && t.order[0] == t.index[b].encrypt.id
    && (!decrypt ==> Ciphertext(t, b) == EncBlock(t.c, b, Plain(t, b)))
  }

  lemma BothCached(s: State, b: nat)
    requires Inv(s) && b < |s.index| && HasD(s, b)
    ensures Accessed(s, GetNode(s, b, true), b, true)
  {
    DNeedsE(s, b);
    var d, e := s.index[b].decrypt.id, s.index[b].encrypt.id;
    assert PairOk(s, b) && NodeOk(s, d) && NodeOk(s, e);
    var t := ToFront(ToFront(s, d), e);
    PairFrontKeeps(s, b);
    PairFrontKeeps(t, b);
    var u := ToFront(ToFront(t, d), e);
    MoveToFrontEnumerates(ToFront(t, d).order, |t.nodes|, e);
    Compose(s, t, u);
    BothShape(s, b);
  }

  lemma BothShape(s: State, b: nat)
    requires Inv(s) && b < |s.index| && HasD(s, b) && HasE(s, b)
    ensures var d, e := s.index[b].decrypt.id, s.index[b].encrypt.id;
            GetNode(s, b, true) == ToFront(ToFront(ToFront(ToFront(s, d), e), d), e)
  {
    DNeedsE(s, b);
    var d, e := s.index[b].decrypt.id, s.index[b].encrypt.id;
    assert PairOk(s, b) && NodeOk(s, d) && NodeOk(s, e);
    var t := ToFront(ToFront(s, d), e);
    var u := ToFront(ToFront(t, d), e);
    assert Lookup(s, b, true) == t;
    assert ClaimD(s, b, true) == Claim(ToFront(t, d), Node(d), false);
    assert ClaimE(s, b, true) == Claim(u, Node(e), false);
    assert SetIndex(u, b, Node(e), Node(d)) == u;
    assert LoadE(u, b) == u && LoadD(u, b) == u;
  }

  // ----- only the ciphertext cached ------------------------------------------------------

  lemma OldestIsNotFirst(s: State)
    requires Shaped(s)
    ensures Oldest(s) < |s.nodes| && Oldest(s) != s.order[0]
  {
  }

  /** Eviction leaves every other ciphertext node in service. */
  lemma EvictOther(s: State, e: nat)
    requires Inv(s) && e < |s.nodes| && e != Oldest(s) && s.nodes[e].enc.Null?
    ensures Evict(s).nodes[e].blk == s.nodes[e].blk && Evict(s).nodes[e].enc.Null?
  {
  }

  ghost predicate ECachedOnly(s: State, b: nat, e: nat)
    requires Shaped(s) && b < |s.index|
  {
    HasE(s, b) && !HasD(s, b) && s.index[b].encrypt == Node(e)
  }

  lemma OnlyECached(s: State, b: nat, e: nat)
    requires Inv(s) && b < |s.index| && ECachedOnly(s, b, e)
    ensures Accessed(s, GetNode(s, b, true), b, true)
  {
    var s1 := ToFront(s, e);
    assert PairOk(s, b) && NodeOk(s, e);
    FrontKeeps(s, e);
    MoveToFrontEnumerates(s.order, |s.nodes|, e);
    OldestIsNotFirst(s1);
    OnlyEShape(s, b, e);
    OnlyEInstalled(s1, b, e);
    Compose(s, s1, GetNode(s, b, true));
  }

  lemma OnlyEShape(s: State, b: nat, e: nat)
    requires Inv(s) && b < |s.index| && ECachedOnly(s, b, e)
    ensures var s1 := ToFront(s, e);
            var x := Oldest(s1);
            var q := ToFront(ToFront(FlushIfUpdated(s1, x), x), e);
            x != e && GetNode(s, b, true) == InstallD(FlushIfUpdated(Release(q, x), e), b, x)
  {
    var s1 := ToFront(s, e);
    MoveToFrontEnumerates(s.order, |s.nodes|, e);
    OldestIsNotFirst(s1);
    var x := Oldest(s1);
    OnlyEClaims(s, b, e);
    var q := ToFront(ToFront(FlushIfUpdated(s1, x), x), e);
    OnlyELoads(q, b, x, e, ClaimD(s, b, true), ClaimE(s, b, true));
  }

  lemma OnlyEClaims(s: State, b: nat, e: nat)
    requires Inv(s) && b < |s.index| && ECachedOnly(s, b, e) && e != Oldest(ToFront(s, e))
    ensures var s1 := ToFront(s, e);
            var x := Oldest(s1);
            var f := FlushIfUpdated(s1, x);
            && ClaimD(s, b, true) == Claim(ToFront(f, x), Node(x), true)
            && ClaimE(s, b, true) == Claim(ToFront(ToFront(f, x), e), Node(e), false)
            && f.nodes[e].blk == b && f.nodes[e].enc.Null? && !f.nodes[e].status.Uninited?
  {
    var s1 := ToFront(s, e);
    OnlyEClaimsD(s, b, e);
    OnlyEStays(s1, Oldest(s1), e);
    assert NodeOk(s, e);
  }

  lemma OnlyEClaimsD(s: State, b: nat, e: nat)
    requires Inv(s) && b < |s.index| && ECachedOnly(s, b, e)
    ensures var s1 := ToFront(s, e);
            var x := Oldest(s1);
            ClaimD(s, b, true) == Claim(ToFront(FlushIfUpdated(s1, x), x), Node(x), true)
  {
    assert PairOk(s, b);
    assert Lookup(s, b, true) == ToFront(s, e);
  }

  lemma OnlyEStays(s1: State, x: nat, e: nat)
    requires Shaped(s1) && x < |s1.nodes| && e < |s1.nodes| && x != e
    ensures var y := FlushIfUpdated(s1, x).nodes[e];
            y.blk == s1.nodes[e].blk && y.enc == s1.nodes[e].enc
            && (!s1.nodes[e].status.Uninited? ==> !y.status.Uninited?)
  {
  }

  /** Rebinding and loading a plaintext node `x` next to a cached ciphertext node `e`. */
  lemma OnlyELoads(q: State, b: nat, x: nat, e: nat, k: Claim, k2: Claim)
    requires Shaped(q) && b < |q.index| && x < |q.nodes| && e < |q.nodes| && x != e
    requires q.nodes[e].blk == b && q.nodes[e].enc.Null? && !q.nodes[e].status.Uninited?
    requires q.index[b].encrypt == Node(e)
    requires k.r == Node(x) && k.update && k2.r == Node(e) && !k2.update
    ensures Load(Rebind(SetIndex(q, b, k2.r, k.r), b, k, k2), b, true)
            == InstallD(FlushIfUpdated(Release(q, x), e), b, x)
  {
    var t := ResetIndex(SetIndex(q, b, Node(e), Node(x)), x, b, Node(e));
    assert LoadE(t, b) == t;
    var w := FlushIfUpdated(Release(q, x), e);
    assert LoadD(t, b).nodes == InstallD(w, b, x).nodes;
  }

  lemma OnlyEInstalled(s1: State, b: nat, e: nat)
    requires Inv(s1) && b < |s1.index| && ECachedOnly(s1, b, e) && e != Oldest(s1)
    ensures var x := Oldest(s1);
            var q := ToFront(ToFront(FlushIfUpdated(s1, x), x), e);
            var t := InstallD(FlushIfUpdated(Release(q, x), e), b, x);
            Accessed(s1, t, b, true)
  {
    assert PairOk(s1, b) && NodeOk(s1, e);
    var x := Oldest(s1);
    var v := Evict(s1);
    EvictKeeps(s1);
    EvictOther(s1, e);
    var w := ToFront(v, e);
    FrontKeeps(v, e);
    MoveToFrontEnumerates(v.order, |v.nodes|, e);
    MoveToFrontRank(v.order, |v.nodes|, e, e);
    MoveToFrontRank(v.order, |v.nodes|, e, x);
    var q := ToFront(ToFront(FlushIfUpdated(s1, x), x), e);
    assert w == Release(q, x);
    FlushKeeps(w, e);
    Compose(s1, v, w);
    Compose(s1, w, FlushIfUpdated(w, e));
    InstallDKeeps(FlushIfUpdated(w, e), b, x);
    Compose(s1, FlushIfUpdated(w, e), InstallD(FlushIfUpdated(w, e), b, x));
  }

  // ----- nothing cached ---------------------------------------------------------------------

  ghost predicate Uncached(s: State, b: nat)
    requires Shaped(s) && b < |s.index|
  {
    !HasE(s, b) && !HasD(s, b)
  }

  lemma NothingCached(s: State, b: nat)
    requires Inv(s) && b < |s.index| && Uncached(s, b)
    ensures Accessed(s, GetNode(s, b, true), b, true)
  {
    var x := Oldest(s);
    var s3 := ToFront(FlushIfUpdated(s, x), x);
    var y := Oldest(s3);
    NothingShape(s, b);
    ClaimsEvict(s, x, s3, y);
    TwoEvictions(s, b, y);
    PairInstalled(s, Evict(Evict(s)), b, x, y);
  }

  lemma NothingShape(s: State, b: nat)
    requires Inv(s) && b < |s.index| && Uncached(s, b)
    ensures var x := Oldest(s);
            var s3 := ToFront(FlushIfUpdated(s, x), x);
            var y := Oldest(s3);
            var q := ToFront(FlushIfUpdated(s3, y), y);
            x != y && GetNode(s, b, true) == InstallPair(Release(Release(q, x), y), b, x, y)
  {
    var x := Oldest(s);
    var s3 := ToFront(FlushIfUpdated(s, x), x);
    var y := Oldest(s3);
    var q := ToFront(FlushIfUpdated(s3, y), y);
    MoveToFrontEnumerates(s.order, |s.nodes|, x);
    OldestIsNotFirst(s3);
    NothingClaims(s, b);
    NothingLoads(q, b, x, y, ClaimD(s, b, true), ClaimE(s, b, true));
  }

  lemma NothingClaims(s: State, b: nat)
    requires Inv(s) && b < |s.index| && Uncached(s, b)
    ensures var x := Oldest(s);
            var s3 := ToFront(FlushIfUpdated(s, x), x);
            var y := Oldest(s3);
            && ClaimD(s, b, true) == Claim(s3, Node(x), true)
            && ClaimE(s, b, true) == Claim(ToFront(FlushIfUpdated(s3, y), y), Node(y), true)
  {
    assert Lookup(s, b, true) == s;
  }

  lemma NothingLoads(q: State, b: nat, x: nat, y: nat, k: Claim, k2: Claim)
    requires Shaped(q) && b < |q.index| && x < |q.nodes| && y < |q.nodes| && x != y
    requires k.r == Node(x) && k.update && k2.r == Node(y) && k2.update
    ensures Load(Rebind(SetIndex(q, b, k2.r, k.r), b, k, k2), b, true)
            == InstallPair(Release(Release(q, x), y), b, x, y)
  {
    var t := ResetIndex(ResetIndex(SetIndex(q, b, Node(y), Node(x)), x, b, Node(y)), y, b, Null);
    var u := BlkToCache(t, y);
    assert LoadE(t, b) == u;
    assert LoadD(u, b) == DecryptNode(u, x);
    assert DecryptNode(u, x).nodes == InstallPair(Release(Release(q, x), y), b, x, y).nodes;
  }

  /** Releasing one node commutes with flushing another that does not name it. */
  lemma FlushReleaseCommute(s: State, x: nat, y: nat)
    requires Shaped(s) && x < |s.nodes| && y < |s.nodes| && x != y && s.nodes[y].enc != Node(x)
    ensures FlushIfUpdated(Release(s, x), y) == Release(FlushIfUpdated(s, y), x)
  {
    assert FlushIfUpdated(Release(s, x), y).nodes == Release(FlushIfUpdated(s, y), x).nodes;
  }

  /** Claiming the two oldest nodes in a row amounts to two evictions. */
  lemma ClaimsEvict(s: State, x: nat, s3: State, y: nat)
    requires Inv(s) && x == Oldest(s) && s3 == ToFront(FlushIfUpdated(s, x), x)
    requires y == Oldest(s3) && y != x
    ensures Oldest(Evict(s)) == y
    ensures Evict(Evict(s)) == Release(Release(ToFront(FlushIfUpdated(s3, y), y), x), y)
  {
    EvictKeeps(s);
    assert NodeOk(Evict(s), y);
    SecondEviction(Evict(s), s3, x, y);
  }

  lemma PairInstalled(s: State, w: State, b: nat, x: nat, y: nat)
    requires Inv(s) && Inv(w) && SamePlain(s, w) && b < |s.index| && Uncached(w, b)
    requires x < |w.nodes| && y < |w.nodes| && w.nodes[x].blk == -1 && w.nodes[y].blk == -1
    requires w.order[0] == y && Rank(w, y) < Rank(w, x)
    ensures Accessed(s, InstallPair(w, b, x, y), b, true)
  {
    InstallPairKeeps(w, b, x, y);
    Compose(s, w, InstallPair(w, b, x, y));
  }

  lemma TwoEvictions(s: State, b: nat, y: nat)
    requires Inv(s) && b < |s.index| && Uncached(s, b) && y == Oldest(Evict(s)) && y != Oldest(s)
    ensures var w, x := Evict(Evict(s)), Oldest(s);
            && Inv(w) && SamePlain(s, w) && Uncached(w, b)
            && w.nodes[x].blk == -1 && w.nodes[y].blk == -1 && w.order[0] == y
            && Rank(w, y) < Rank(w, x)
  {
    EvictKeeps(s);
    EvictKeeps(Evict(s));
    Compose(s, Evict(s), Evict(Evict(s)));
    DistinctRanks(Evict(Evict(s)), Oldest(s), y);
  }

  lemma SecondEviction(v: State, s3: State, x: nat, y: nat)
    requires Shaped(s3) && x < |s3.nodes| && v == Release(s3, x)
    requires y == Oldest(s3) && y != x && s3.nodes[y].enc != Node(x)
    ensures Evict(v) == Release(Release(ToFront(FlushIfUpdated(s3, y), y), x), y)
  {
    FlushReleaseCommute(s3, x, y);
  }

  // ----- ciphertext accesses -----------------------------------------------------------------

  lemma ReadsUncached(s: State, b: nat)
    requires Inv(s) && b < |s.index| && Uncached(s, b)
    ensures Accessed(s, GetNode(s, b, false), b, false)
  {
    var y := Oldest(s);
    UncachedShape(s, b);
    EvictKeeps(s);
    InstallEKeeps(Evict(s), b, y);
    Inverse(s.c, b, DevRead(Evict(s), b));
    Compose(s, Evict(s), InstallE(Evict(s), b, y));
    MoveToFrontEnumerates(s.order, |s.nodes|, y);
  }

  lemma UncachedShape(s: State, b: nat)
    requires Inv(s) && b < |s.index| && Uncached(s, b)
    ensures GetNode(s, b, false) == InstallE(Evict(s), b, Oldest(s))
  {
    var y := Oldest(s);
    var q := ToFront(FlushIfUpdated(s, y), y);
    assert Lookup(s, b, false) == s;
    assert ClaimD(s, b, false) == Claim(s, Null, false);
    assert ClaimE(s, b, false) == Claim(q, Node(y), true);
    EOnlyLoads(q, b, y, ClaimD(s, b, false), ClaimE(s, b, false));
    assert Evict(s) == Release(q, y);
  }

  lemma EOnlyLoads(q: State, b: nat, y: nat, k: Claim, k2: Claim)
    requires Shaped(q) && b < |q.index| && y < |q.nodes|
    requires k.r == Null && !k.update && k2.r == Node(y) && k2.update
    ensures Load(Rebind(SetIndex(q, b, k2.r, k.r), b, k, k2), b, false) == InstallE(Release(q, y), b, y)
  {
    var t := ResetIndex(SetIndex(q, b, Node(y), Null), y, b, Null);
    assert LoadE(t, b) == BlkToCache(t, y);
    assert BlkToCache(t, y).nodes == InstallE(Release(q, y), b, y).nodes;
  }

  lemma ReadsCached(s: State, b: nat, e: nat)
    requires Inv(s) && b < |s.index| && HasE(s, b) && s.index[b].encrypt == Node(e)
    ensures Accessed(s, GetNode(s, b, false), b, false)
  {
    var s1 := ToFront(s, e);
    var s2 := ToFront(s1, e);
    assert PairOk(s, b);
    FrontKeeps(s, e);
    MoveToFrontEnumerates(s.order, |s.nodes|, e);
    FrontKeeps(s1, e);
    MoveToFrontEnumerates(s1.order, |s.nodes|, e);
    ReadsCachedShape(s, b, e);
    ForgetStale(s2, b);
    var t := GetCacheIndex(s, b, false);
    SavesPlaintext(t, b);
    Compose(s, s1, s2);
    Compose(s, s2, t);
    Compose(s, t, Load(t, b, false));
  }

  lemma ReadsCachedShape(s: State, b: nat, e: nat)
    requires Inv(s) && b < |s.index| && HasE(s, b) && s.index[b].encrypt == Node(e)
    ensures var d := if HasD(s, b) then s.index[b].decrypt else Null;
            GetCacheIndex(s, b, false) == SetIndex(ToFront(ToFront(s, e), e), b, Node(e), d)
  {
    assert PairOk(s, b);
    var d := if HasD(s, b) then s.index[b].decrypt else Null;
    assert Lookup(s, b, false) == ToFront(s, e);
    assert ClaimD(s, b, false) == Claim(ToFront(s, e), d, false);
    assert ClaimE(s, b, false) == Claim(ToFront(ToFront(s, e), e), Node(e), false);
  }

  /** A ciphertext read encrypts a dirty plaintext first. */
  lemma SavesPlaintext(t: State, b: nat)
    requires Inv(t) && b < |t.index| && HasE(t, b) && (t.index[b].decrypt.Node? ==> HasD(t, b))
    ensures var u := Load(t, b, false);
            Inv(u) && SamePlain(t, u) && HasE(u, b) && u.order == t.order
            && Ciphertext(u, b) == EncBlock(u.c, b, Plain(u, b))
  {
    assert PairOk(t, b) && NodeOk(t, t.index[b].encrypt.id);
    assert LoadE(t, b) == t;
    var d := t.index[b].decrypt;
    if d.Node? {
      DNeedsE(t, b);
      assert NodeOk(t, d.id);
      if t.nodes[d.id].status.Updated? { EncryptKeeps(t, d.id); }
    } else {
      Inverse(t.c, b, Ciphertext(t, b));
    }
  }

  /** Dropping a stale plaintext entry changes nothing. */
  lemma ForgetStale(s: State, b: nat)
    requires Inv(s) && b < |s.index|
    ensures var t := SetIndex(s, b, s.index[b].encrypt, if HasD(s, b) then s.index[b].decrypt else Null);
            Inv(t) && SamePlain(s, t) && t.order == s.order && t.nodes == s.nodes && HasE(t, b) == HasE(s, b)
  {
    var t := SetIndex(s, b, s.index[b].encrypt, if HasD(s, b) then s.index[b].decrypt else Null);
    forall m: nat | m < |t.nodes| ensures NodeOk(t, m) { assert NodeOk(s, m); }
    forall a: nat | a < |t.index| ensures PairOk(t, a) && BlockKept(s, t, a) { assert PairOk(s, a); }
  }

  /** Every access keeps the invariant and the logical content of every block, whatever it
      evicts or reloads, and ends with the block's ciphertext node most recently used. */
  lemma AccessKeeps(s: State, b: nat, decrypt: bool)
    requires Inv(s) && b < |s.index|
    ensures Accessed(s, GetNode(s, b, decrypt), b, decrypt)
  {
    if HasD(s, b) { DNeedsE(s, b); }
    if HasE(s, b) {
      var e := s.index[b].encrypt.id;
      if !decrypt { ReadsCached(s, b, e); } else if HasD(s, b) { BothCached(s, b); } else { OnlyECached(s, b, e); }
    } else {
      if decrypt { NothingCached(s, b); } else { ReadsUncached(s, b); }
    }
  }
}
