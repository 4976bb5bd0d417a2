/**
 The run-time assertions of the cache never fail on reachable states: what the storage node asserts
 while it claims, rebinds, loads and flushes nodes.
 */
module CacheAsserts {
  import opened Layout
  import opened Cipher
  import opened CacheSpec
  import opened CacheInvariant
  import opened CacheAccess

  /** What `encrypt`, `decrypt` and `cache2blk` assert of a node. */
  ghost predicate Sound(s: State, n: nat)
    requires Shaped(s) && n < |s.nodes|
  {
    var x := s.nodes[n];
    && (x.enc.Node? ==> x.enc.id != n && s.nodes[x.enc.id].blk == x.blk && 0 <= x.blk)
    && (x.status.Updated? ==> 0 <= x.blk)
  }

  lemma InvSound(s: State, n: nat)
    requires Inv(s) && n < |s.nodes|
    ensures Sound(s, n)
  {
    assert NodeOk(s, n);
  }

  /** The oldest nodes claimed by an access may be flushed, and are clean when rebound. */
  ghost predicate ClaimsSound(s: State, b: nat, decrypt: bool)
    requires Shaped(s) && b < |s.index|
  {
    var d, e := ClaimD(s, b, decrypt), ClaimE(s, b, decrypt);
    && Sound(Lookup(s, b, decrypt), Oldest(Lookup(s, b, decrypt)))
    && Sound(d.s, Oldest(d.s))
    && (d.r.Node? ==> d.r != e.r)
    && ((d.update || e.update) && d.r.Node? ==> !e.s.nodes[d.r.id].status.Updated?)
    && (e.update ==> !e.s.nodes[e.r.id].status.Updated?)
  }

  /** The claimed nodes serve the block in the right roles. */
  ghost predicate Bound(t: State, b: nat, decrypt: bool)
    requires Shaped(t) && b < |t.index| && t.index[b].encrypt.Node? && (decrypt ==> t.index[b].decrypt.Node?)
  {
    var e, d := t.index[b].encrypt.id, t.index[b].decrypt;
    && t.nodes[e].blk == b && t.nodes[e].enc.Null?
    && (d.Node? ==> t.nodes[d.id].blk == b && t.nodes[d.id].enc == Node(e) && d.id != e)
    && (!decrypt && d.Node? ==> !t.nodes[d.id].status.Uninited?)
  }

  lemma AssertsHold(s: State, b: nat, decrypt: bool)
    requires Inv(s) && b < |s.index|
    ensures ClaimsSound(s, b, decrypt)
    ensures Bound(GetCacheIndex(s, b, decrypt), b, decrypt)
  {
    if HasD(s, b) { DNeedsE(s, b); }
    if HasE(s, b) {
      var e := s.index[b].encrypt.id;
      if !decrypt { CiphertextAsserts(s, b, e); }
      else if HasD(s, b) { BothAsserts(s, b); }
      else { OnlyEAsserts(s, b, e); }
    } else {
      if decrypt { NothingAsserts(s, b); } else { UncachedAsserts(s, b); }
    }
  }

  lemma BothAsserts(s: State, b: nat)
    requires Inv(s) && b < |s.index| && HasD(s, b) && HasE(s, b)
    ensures ClaimsSound(s, b, true) && Bound(GetCacheIndex(s, b, true), b, true)
  {
    DNeedsE(s, b);
    var d, e := s.index[b].decrypt.id, s.index[b].encrypt.id;
    assert PairOk(s, b) && NodeOk(s, d) && NodeOk(s, e);
    InvSound(s, Oldest(s));
    InvSound(s, Oldest(Lookup(s, b, true)));
    InvSound(s, Oldest(ClaimD(s, b, true).s));
  }

  lemma OnlyEAsserts(s: State, b: nat, e: nat)
    requires Inv(s) && b < |s.index| && ECachedOnly(s, b, e)
    ensures ClaimsSound(s, b, true) && Bound(GetCacheIndex(s, b, true), b, true)
  {
    var s1 := ToFront(s, e);
    assert PairOk(s, b) && NodeOk(s, e);
    FrontKeeps(s, e);
    MoveToFrontEnumerates(s.order, |s.nodes|, e);
    OldestIsNotFirst(s1);
    OnlyEClaims(s, b, e);
    var x := Oldest(s1);
    FlushKeeps(s1, x);
    InvSound(s1, x);
    InvSound(s, Oldest(s));
    InvSound(FlushIfUpdated(s1, x), Oldest(ToFront(FlushIfUpdated(s1, x), x)));
  }

  lemma NothingAsserts(s: State, b: nat)
    requires Inv(s) && b < |s.index| && Uncached(s, b)
    ensures ClaimsSound(s, b, true) && Bound(GetCacheIndex(s, b, true), b, true)
  {
    var x := Oldest(s);
    var f := FlushIfUpdated(s, x);
    var s3 := ToFront(f, x);
    var y := Oldest(s3);
    InvSound(s, x);
    FlushKeeps(s, x);
    InvSound(f, y);
    MoveToFrontEnumerates(s.order, |s.nodes|, x);
    OldestIsNotFirst(s3);
    NothingClaims(s, b);
    EvictKeeps(s);
    assert NodeOk(Evict(s), y);
    assert s3.nodes[y].enc != Node(x);
  }

  lemma UncachedAsserts(s: State, b: nat)
    requires Inv(s) && b < |s.index| && Uncached(s, b)
    ensures ClaimsSound(s, b, false) && Bound(GetCacheIndex(s, b, false), b, false)
  {
    var y := Oldest(s);
    InvSound(s, y);
    FlushKeeps(s, y);
    assert Lookup(s, b, false) == s;
  }

  lemma CiphertextAsserts(s: State, b: nat, e: nat)
    requires Inv(s) && b < |s.index| && HasE(s, b) && s.index[b].encrypt == Node(e)
    ensures ClaimsSound(s, b, false) && Bound(GetCacheIndex(s, b, false), b, false)
  {
    assert PairOk(s, b) && NodeOk(s, e);
    if HasD(s, b) {
      DNeedsE(s, b);
      assert NodeOk(s, s.index[b].decrypt.id);
    }
    InvSound(s, Oldest(s));
    InvSound(s, Oldest(ToFront(s, e)));
    ReadsCachedShape(s, b, e);
    assert Lookup(s, b, false) == ToFront(s, e);
    assert ClaimD(s, b, false).s == ToFront(s, e);
  }
}
