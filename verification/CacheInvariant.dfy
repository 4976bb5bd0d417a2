/**
 What every cache state keeps, and the array of blocks it stands for.
 */
module CacheInvariant {
  import opened Layout
  import opened Cipher
  import opened CacheSpec

  ghost function Rank(s: State, n: nat): nat
    requires Shaped(s) && n < |s.nodes|
  {
    Find(s.order, n)
  }

  /** A node is free, or serves a block the index finds it under. A clean E node mirrors
      the device; a D node names an E node of its block that is more recently used, and
      while clean it is that node's plaintext. */
  ghost predicate NodeOk(s: State, n: nat)
    requires Shaped(s) && n < |s.nodes|
  {
    var x := s.nodes[n];
    if x.blk == -1 then
      x.status.Uninited? && x.enc.Null?
    else if x.enc.Null? then
      && !x.status.Uninited?
      && s.index[x.blk].encrypt == Node(n)
      && (x.status.Inited? ==> DevRead(s, x.blk) == x.data)
    else
      var e := x.enc.id;
      && !x.status.Uninited?
      && s.index[x.blk].decrypt == Node(n)
      && s.nodes[e].blk == x.blk && s.nodes[e].enc.Null?
      && Rank(s, e) < Rank(s, n)
      && (x.status.Inited? ==> s.nodes[e].data == EncBlock(s.c, x.blk, x.data))
  }

  /** Index entries are null, stale, or of the right kind. */
  ghost predicate PairOk(s: State, b: nat)
    requires Shaped(s) && b < |s.index|
  {
    var p := s.index[b];
    && (Serves(s, p.decrypt, b) ==> s.nodes[p.decrypt.id].enc.Node?)
    && (Serves(s, p.encrypt, b) ==> s.nodes[p.encrypt.id].enc.Null?)
  }

  ghost predicate Inv(s: State) {
    && Shaped(s)
    && (forall n: nat :: n < |s.nodes| ==> NodeOk(s, n))
    && (forall b: nat :: b < |s.index| ==> PairOk(s, b))
  }

  ghost predicate HasD(s: State, b: nat)
    requires Shaped(s) && b < |s.index|
  {
    Serves(s, s.index[b].decrypt, b)
  }

  ghost predicate HasE(s: State, b: nat)
    requires Shaped(s) && b < |s.index|
  {
    Serves(s, s.index[b].encrypt, b)
  }

  /** The ciphertext the next reader of block `b` would load. */
  ghost function Ciphertext(s: State, b: nat): Block
    requires Shaped(s) && b < |s.index|
  {
    if HasE(s, b) then s.nodes[s.index[b].encrypt.id].data else DevRead(s, b)
  }

  /** The logical content of block `b`. */
  ghost function Plain(s: State, b: nat): Block
    requires Shaped(s) && b < |s.index|
  {
    if HasD(s, b) then s.nodes[s.index[b].decrypt.id].data else DecBlock(s.c, b, Ciphertext(s, b))
  }

  /** `x` is a ciphertext of block `b` that state `s` accounts for. */
  ghost predicate Known(s: State, b: nat, x: Block)
    requires Shaped(s) && b < |s.index|
  {
    x == DevRead(s, b) || x == Ciphertext(s, b) || x == EncBlock(s.c, b, Plain(s, b))
  }

  /** Block `b` kept its logical content, and no ciphertext was made up. */
  ghost predicate BlockKept(s: State, t: State, b: nat)
    requires Shaped(s) && Shaped(t) && b < |s.index| == |t.index|
  {
    Plain(t, b) == Plain(s, b) && Known(s, b, DevRead(t, b)) && Known(s, b, Ciphertext(t, b))
  }

  ghost predicate SamePlain(s: State, t: State)
    requires Shaped(s) && Shaped(t)
  {
    && t.c == s.c && |t.index| == |s.index| && |t.nodes| == |s.nodes|
    && forall b: nat :: b < |s.index| ==> BlockKept(s, t, b)
  }

  lemma Compose(s: State, t: State, u: State)
    requires Shaped(s) && Shaped(t) && Shaped(u) && SamePlain(s, t) && SamePlain(t, u)
    ensures SamePlain(s, u)
  {
    forall b: nat | b < |s.index| ensures BlockKept(s, u, b) {
      assert BlockKept(s, t, b) && BlockKept(t, u, b);
    }
  }

  // ----- steps that keep the invariant and the logical content -----------------------

  lemma EncryptKeeps(s: State, n: nat)
    requires Inv(s) && n < |s.nodes| && s.nodes[n].enc.Node?
    ensures var t := EncryptNode(s, n);
            Inv(t) && SamePlain(s, t) && t.nodes[n] == s.nodes[n].(status := Inited)
  {
    var t, d, e := EncryptNode(s, n), s.nodes[n], s.nodes[n].enc.id;
    assert NodeOk(s, n);
    assert NodeOk(s, e);
    Inverse(s.c, d.blk, d.data);
    forall m: nat | m < |t.nodes| ensures NodeOk(t, m) {
      assert NodeOk(s, m);
      assert m != n && m != e ==> t.nodes[m] == s.nodes[m];
    }
    forall b: nat | b < |t.index| ensures PairOk(t, b) && BlockKept(s, t, b) {
      assert PairOk(s, b);
    }
  }

  lemma WriteBackKeeps(s: State, n: nat)
    requires Inv(s) && n < |s.nodes| && s.nodes[n].enc.Null? && 0 <= s.nodes[n].blk
    ensures var t := CacheToBlk(s, n);
            Inv(t) && SamePlain(s, t) && t.nodes[n] == s.nodes[n].(status := Inited)
  {
    var t := CacheToBlk(s, n);
    assert NodeOk(s, n);
    forall m: nat | m < |t.nodes| ensures NodeOk(t, m) { assert NodeOk(s, m); }
    forall b: nat | b < |t.index| ensures PairOk(t, b) && BlockKept(s, t, b) { assert PairOk(s, b); }
  }

  lemma FlushKeeps(s: State, n: nat)
    requires Inv(s) && n < |s.nodes|
    ensures var t := FlushIfUpdated(s, n);
            Inv(t) && SamePlain(s, t) && !t.nodes[n].status.Updated?
            && t.nodes[n] == s.nodes[n].(status := t.nodes[n].status)
  {
    assert NodeOk(s, n);
    if s.nodes[n].status.Updated? {
      if s.nodes[n].enc.Node? { EncryptKeeps(s, n); } else { WriteBackKeeps(s, n); }
    }
  }

  /** A node that stops serving its block. */
  ghost function Release(s: State, n: nat): (r: State)
    requires Shaped(s) && n < |s.nodes|
    ensures Shaped(r)
  {
    s.(nodes := s.nodes[n := CacheNode(-1, s.nodes[n].data, Uninited, Null)])
  }

  /** The order invariant at work: the oldest node is nobody's ciphertext, so once clean it
      can be dropped. */
  lemma ReleaseKeeps(s: State, n: nat)
    requires Inv(s) && n < |s.nodes| && !s.nodes[n].status.Updated?
    requires Rank(s, n) == |s.nodes| - 1
    ensures Inv(Release(s, n)) && SamePlain(s, Release(s, n))
  {
    var t := Release(s, n);
    assert NodeOk(s, n);
    forall m: nat | m < |t.nodes| ensures NodeOk(t, m) { assert NodeOk(s, m); }
    forall b: nat | b < |t.index| ensures PairOk(t, b) && BlockKept(s, t, b) {
      assert PairOk(s, b);
      if HasD(s, b) && s.index[b].decrypt.id == n {
        var e := s.nodes[n].enc.id;
        assert NodeOk(s, e);
        Inverse(s.c, b, s.nodes[n].data);
      }
    }
  }

  lemma FrontKeeps(s: State, n: nat)
    requires Inv(s) && n < |s.nodes| && s.nodes[n].enc.Null?
    ensures Inv(ToFront(s, n)) && SamePlain(s, ToFront(s, n))
  {
    var t := ToFront(s, n);
    forall m: nat | m < |t.nodes| ensures NodeOk(t, m) {
      assert NodeOk(s, m);
      MoveToFrontRank(s.order, |s.nodes|, n, m);
      if s.nodes[m].enc.Node? { MoveToFrontRank(s.order, |s.nodes|, n, s.nodes[m].enc.id); }
    }
    forall b: nat | b < |t.index| ensures PairOk(t, b) && BlockKept(s, t, b) { assert PairOk(s, b); }
  }

  lemma DNeedsE(s: State, b: nat)
    requires Inv(s) && b < |s.index| && HasD(s, b)
    ensures HasE(s, b)
    ensures s.nodes[s.index[b].decrypt.id].enc == s.index[b].encrypt
  {
    var d := s.index[b].decrypt.id;
    assert PairOk(s, b) && NodeOk(s, d);
    assert NodeOk(s, s.nodes[d].enc.id);
  }

  /** The net effect of claiming the oldest node. */
  ghost function Evict(s: State): (r: State)
    requires Shaped(s)
    ensures Shaped(r)
  {
    var x := Oldest(s);
    ToFront(Release(FlushIfUpdated(s, x), x), x)
  }

  lemma EvictKeeps(s: State)
    requires Inv(s)
    ensures var t := Evict(s);
            && Inv(t) && SamePlain(s, t) && t.index == s.index
            && t.nodes[Oldest(s)].blk == -1 && Rank(t, Oldest(s)) == 0
            && forall n: nat :: n < |s.nodes| && s.nodes[n].blk == -1 ==> t.nodes[n].blk == -1
    ensures forall b: nat :: b < |s.index| && HasE(Evict(s), b) ==> HasE(s, b)
    ensures forall b: nat :: b < |s.index| && HasD(Evict(s), b) ==> HasD(s, b)
  {
    var x := Oldest(s);
    var u := FlushIfUpdated(s, x);
    FlushKeeps(s, x);
    FindAt(s.order, |s.nodes|, |s.nodes| - 1);
    ReleaseKeeps(u, x);
    var v := Release(u, x);
    FrontKeeps(v, x);
    Compose(s, u, v);
    Compose(s, v, ToFront(v, x));
    MoveToFrontRank(v.order, |v.nodes|, x, x);
  }

  /** Both nodes of an uncached block, freshly loaded. */
  ghost function InstallPair(s: State, b: nat, x: nat, y: nat): (t: State)
    requires Shaped(s) && b < |s.index| && x < |s.nodes| && y < |s.nodes|
    ensures Shaped(t)
  {
    var e := DevRead(s, b);
    s.(nodes := s.nodes[y := CacheNode(b, e, Inited, Null)][x := CacheNode(b, DecBlock(s.c, b, e), Inited, Node(y))],
       index := s.index[b := Pair(Node(y), Node(x))])
  }

  lemma InstallPairKeeps(s: State, b: nat, x: nat, y: nat)
    requires Inv(s) && b < |s.index| && x < |s.nodes| && y < |s.nodes| && x != y
    requires s.nodes[x].blk == -1 && s.nodes[y].blk == -1 && !HasE(s, b) && Rank(s, y) < Rank(s, x)
    ensures Inv(InstallPair(s, b, x, y)) && SamePlain(s, InstallPair(s, b, x, y))
  {
    var t := InstallPair(s, b, x, y);
    if HasD(s, b) { DNeedsE(s, b); }
    Inverse(s.c, b, DevRead(s, b));
    forall m: nat | m < |t.nodes| ensures NodeOk(t, m) { OthersStay(s, b, m); }
    forall a: nat | a < |t.index| ensures PairOk(t, a) && BlockKept(s, t, a) { assert PairOk(s, a); }
  }

  /** No node serves a block that the index does not know. */
  lemma OthersStay(s: State, b: nat, m: nat)
    requires Inv(s) && b < |s.index| && !HasE(s, b) && m < |s.nodes|
    ensures NodeOk(s, m) && s.nodes[m].blk != b
  {
    assert NodeOk(s, m);
    if s.nodes[m].enc.Node? { assert NodeOk(s, s.nodes[m].enc.id); }
  }

  ghost function InstallE(s: State, b: nat, y: nat): (t: State)
    requires Shaped(s) && b < |s.index| && y < |s.nodes|
    ensures Shaped(t)
  {
    s.(nodes := s.nodes[y := CacheNode(b, DevRead(s, b), Inited, Null)], index := s.index[b := Pair(Node(y), Null)])
  }

  lemma InstallEKeeps(s: State, b: nat, y: nat)
    requires Inv(s) && b < |s.index| && y < |s.nodes| && s.nodes[y].blk == -1 && !HasE(s, b)
    ensures Inv(InstallE(s, b, y)) && SamePlain(s, InstallE(s, b, y))
  {
    var t := InstallE(s, b, y);
    if HasD(s, b) { DNeedsE(s, b); }
    forall m: nat | m < |t.nodes| ensures NodeOk(t, m) { OthersStay(s, b, m); }
    forall a: nat | a < |t.index| ensures PairOk(t, a) && BlockKept(s, t, a) { assert PairOk(s, a); }
  }

  /** The plaintext node of a block whose clean ciphertext is cached. */
  ghost function InstallD(s: State, b: nat, x: nat): (t: State)
    requires Shaped(s) && b < |s.index| && x < |s.nodes| && s.index[b].encrypt.Node?
    ensures Shaped(t)
  {
    var e := s.index[b].encrypt;
    s.(nodes := s.nodes[x := CacheNode(b, DecBlock(s.c, b, s.nodes[e.id].data), Inited, e)],
       index := s.index[b := Pair(e, Node(x))])
  }

  lemma InstallDKeeps(s: State, b: nat, x: nat)
    requires Inv(s) && b < |s.index| && x < |s.nodes| && s.nodes[x].blk == -1
    requires HasE(s, b) && !HasD(s, b) && Rank(s, s.index[b].encrypt.id) < Rank(s, x)
    ensures Inv(InstallD(s, b, x)) && SamePlain(s, InstallD(s, b, x))
  {
    var t, e := InstallD(s, b, x), s.index[b].encrypt.id;
    assert PairOk(s, b);
    Inverse(s.c, b, s.nodes[e].data);
    forall m: nat | m < |t.nodes| ensures NodeOk(t, m) { assert NodeOk(s, m); }
    forall a: nat | a < |t.index| ensures PairOk(t, a) && BlockKept(s, t, a) { assert PairOk(s, a); }
  }
}
