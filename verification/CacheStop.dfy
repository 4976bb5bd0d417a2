/**
 Shutdown (`cache_manager::flush_and_stop`): one traversal of the LRU ring along `prev`,
 which visits the most recent node first and then the others from the oldest on.
 */
module CacheStop {
  import opened Layout
  import opened Cipher
  import opened CacheSpec
  import opened CacheInvariant
  import opened CacheAccess
  import opened CacheRuns

  /** Flushes the nodes at ranks `k` and above, oldest first. */
  ghost function FlushDown(s: State, k: nat): (t: State)
    requires Shaped(s) && k <= |s.nodes|
    ensures Shaped(t) && t.order == s.order && |t.nodes| == |s.nodes| && t.index == s.index && t.c == s.c
    decreases |s.nodes| - k
  {
    if k == |s.nodes| then s else FlushIfUpdated(FlushDown(s, k + 1), s.order[k])
  }

  ghost function FlushAndStop(s: State): (t: State)
    requires Shaped(s)
    ensures Shaped(t)
  {
    FlushDown(FlushIfUpdated(s, s.order[0]), 1)
  }

  /** The states of the traversal, by the lowest rank flushed so far. */
  ghost function Chain(s: State): (r: seq<State>)
    requires Inv(s)
    ensures |r| == |s.nodes| + 1 && r[1] == FlushAndStop(s) && IsChain(r)
    ensures r[|s.nodes|] == FlushIfUpdated(s, s.order[0])
  {
    var f := FlushIfUpdated(s, s.order[0]);
    FlushKeeps(s, s.order[0]);
    var r := seq(|s.nodes| + 1, k requires 0 <= k <= |s.nodes| => FlushDown(f, k));
    assert IsChain(r) by {
      forall k: nat | k < |s.nodes| ensures ChainLink(r, k) { FlushDownKeeps(f, k + 1); }
    }
    r
  }

  ghost predicate ChainLink(r: seq<State>, k: nat)
    requires k + 1 < |r|
  {
    && Inv(r[k + 1]) && k < |r[k + 1].nodes| && r[k + 1].order == r[|r| - 1].order
    && r[k] == FlushIfUpdated(r[k + 1], r[k + 1].order[k])
  }

  ghost predicate IsChain(r: seq<State>) {
    forall k: nat :: k < |r| - 1 ==> ChainLink(r, k)
  }

  /** The most recent node is the ciphertext node of a block whose plaintext is dirty. */
  ghost predicate Stranded(s: State)
    requires Shaped(s)
  {
    var b := s.nodes[s.order[0]].blk;
    0 <= b && HasD(s, b) && s.nodes[s.index[b].decrypt.id].status.Updated?
  }

  /** Node `n` once ranks `k` and above are flushed: clean, or as dirty as before plus the
      ciphertext of a flushed plaintext. */
  ghost predicate NodeFlushed(s: State, t: State, k: nat, n: nat)
    requires Shaped(s) && Shaped(t) && n < |s.nodes| == |t.nodes|
  {
    var x, y := s.nodes[n], t.nodes[n];
    && y.blk == x.blk && y.enc == x.enc
    && (Rank(s, n) >= k ==> !y.status.Updated?)
    && (Rank(s, n) < k && x.enc.Node? ==> y == x)
    && (Rank(s, n) < k && x.enc.Null? ==> (y.status.Updated? <==> x.status.Updated? || DirtyPlain(s, n, k)))
  }

  ghost predicate Flushed(s: State, t: State, k: nat)
    requires Shaped(s) && Shaped(t) && s.order == t.order && |s.nodes| == |t.nodes|
  {
    && Inv(t) && SamePlain(s, t)
    && (forall n: nat :: n < |s.nodes| ==> NodeFlushed(s, t, k, n))
    && (forall b: nat :: b < |s.index| && HasE(s, b) && Rank(s, s.index[b].encrypt.id) < k ==>
          DevRead(t, b) == DevRead(s, b))
  }

  /** Node `n` is the ciphertext of a dirty plaintext node at rank `k` or above. */
  ghost predicate DirtyPlain(s: State, n: nat, k: nat)
    requires Shaped(s) && n < |s.nodes|
  {
    var b := s.nodes[n].blk;
    0 <= b && HasD(s, b) && s.nodes[s.index[b].decrypt.id].status.Updated? && Rank(s, s.index[b].decrypt.id) >= k
  }

  lemma {:induction false} FlushDownKeeps(s: State, k: nat)
    requires Inv(s) && k <= |s.nodes|
    ensures Flushed(s, FlushDown(s, k), k)
    decreases |s.nodes| - k
  {
    if k == |s.nodes| {
      assert forall b: nat :: b < |s.index| ==> BlockKept(s, s, b);
    } else {
      var u := FlushDown(s, k + 1);
      FlushDownKeeps(s, k + 1);
      FlushOneMore(s, u, k);
    }
  }

  lemma FlushOneMore(s: State, u: State, k: nat)
    requires Inv(s) && k < |s.nodes| && Shaped(u) && u.order == s.order && |u.nodes| == |s.nodes| && u.index == s.index
    requires Flushed(s, u, k + 1)
    ensures Flushed(s, FlushIfUpdated(u, s.order[k]), k)
  {
    var x := s.order[k];
    var t := FlushIfUpdated(u, x);
    FindAt(s.order, |s.nodes|, k);
    FlushKeeps(u, x);
    Compose(s, u, t);
    assert NodeOk(s, x) && NodeOk(u, x) && NodeFlushed(s, u, k + 1, x);
    forall b: nat | b < |s.index| && HasE(s, b) && Rank(s, s.index[b].encrypt.id) < k
      ensures DevRead(t, b) == DevRead(s, b)
    {
      assert DevRead(u, b) == DevRead(s, b);
    }
    forall n: nat | n < |s.nodes| ensures NodeFlushed(s, t, k, n) {
      assert NodeFlushed(s, u, k + 1, n);
      NodeOneMore(s, u, k, n);
    }
  }

  lemma NodeOneMore(s: State, u: State, k: nat, n: nat)
    requires Inv(s) && k < |s.nodes| && Inv(u) && |u.nodes| == |s.nodes| && u.index == s.index && n < |s.nodes|
    requires Rank(s, s.order[k]) == k
    requires NodeFlushed(s, u, k + 1, n) && NodeFlushed(s, u, k + 1, s.order[k])
    ensures NodeFlushed(s, FlushIfUpdated(u, s.order[k]), k, n)
  {
    var x := s.order[k];
    var b := s.nodes[n].blk;
    FlushKeeps(u, x);
    assert NodeOk(s, n) && NodeOk(s, x) && NodeOk(u, x);
    if n != x { DistinctRanks(s, n, x); }
    if s.nodes[n].enc.Null? && 0 <= b && HasD(s, b) {
      DNeedsE(s, b);
      if s.index[b].decrypt.id != x { DistinctRanks(s, s.index[b].decrypt.id, x); }
    }
  }

  /** What shutdown leaves: no plaintext is dirty, the only node that can still be dirty is
      the most recent one, and it is exactly when that node is stranded. Every other block
      is on the device; a stranded block keeps the ciphertext it had before. */
  lemma StopPersists(s: State, b: nat)
    requires Inv(s) && b < |s.index|
    ensures var t := FlushAndStop(s);
            && Inv(t) && SamePlain(s, t)
            && ((forall n :: 0 <= n < |t.nodes| ==> !t.nodes[n].status.Updated?) <==> !Stranded(s))
            && (forall n :: 0 <= n < |t.nodes| && n != s.order[0] ==> !t.nodes[n].status.Updated?)
            && DevRead(t, b) == if Stranded(s) && b == s.nodes[s.order[0]].blk then Ciphertext(s, b)
                                else EncBlock(s.c, b, Plain(s, b))
  {
    var l := s.order[0];
    var f := FlushIfUpdated(s, l);
    var t := FlushAndStop(s);
    FindAt(s.order, |s.nodes|, 0);
    assert NodeOk(s, l);
    FlushKeeps(s, l);
    FlushDownKeeps(f, 1);
    Compose(s, f, t);
    LatestAfterStop(s, f, t);
    assert NodeFlushed(f, t, 1, l);
    assert BlockKept(s, t, b);
    if HasE(t, b) && s.index[b].encrypt.id == l {
      assert PairOk(s, b) && NodeOk(f, l);
    }
    if !(Stranded(s) && b == s.nodes[l].blk) { CleanBlock(t, b); }
  }

  lemma LatestAfterStop(s: State, f: State, t: State)
    requires Inv(s) && f == FlushIfUpdated(s, s.order[0]) && Inv(f)
    requires Shaped(t) && f.order == t.order && |f.nodes| == |t.nodes| && Flushed(f, t, 1)
    ensures t.nodes[s.order[0]].status.Updated? <==> Stranded(s)
    ensures forall n: nat :: n < |t.nodes| && n != s.order[0] ==> !t.nodes[n].status.Updated?
  {
    var l := s.order[0];
    FindAt(s.order, |s.nodes|, 0);
    assert NodeOk(s, l) && NodeOk(f, l);
    FlushKeeps(s, l);
    forall n: nat | n < |t.nodes| && n != l ensures !t.nodes[n].status.Updated? {
      DistinctRanks(s, n, l);
      assert NodeFlushed(f, t, 1, n);
    }
    assert NodeFlushed(f, t, 1, l);
    var b := s.nodes[l].blk;
    if 0 <= b && HasD(s, b) {
      DNeedsE(s, b);
      assert PairOk(s, b);
      DistinctRanks(s, s.index[b].decrypt.id, l);
    }
  }

  /** A block without dirty nodes is on the device. */
  lemma CleanBlock(t: State, b: nat)
    requires Inv(t) && b < |t.index|
    requires HasE(t, b) ==> !t.nodes[t.index[b].encrypt.id].status.Updated?
    requires HasD(t, b) ==> !t.nodes[t.index[b].decrypt.id].status.Updated?
    ensures DevRead(t, b) == EncBlock(t.c, b, Plain(t, b))
  {
    assert PairOk(t, b);
    Inverse(t.c, b, Ciphertext(t, b));
    if HasE(t, b) { assert NodeOk(t, t.index[b].encrypt.id); }
    if HasD(t, b) {
      DNeedsE(t, b);
      assert NodeOk(t, t.index[b].decrypt.id);
    }
  }

  /** Shutting down right after a write strands the written block. */
  lemma WriteStrands(s: State, b: nat, offset: nat, data: seq<Byte>)
    requires Inv(s) && b < |s.index| && offset <= BLK_SIZE
    ensures var t := Write(s, b, offset, data);
            Stranded(t) && t.nodes[t.order[0]].blk == b
  {
    var u := GetNode(s, b, true);
    AccessKeeps(s, b, true);
    WrittenIsStranded(u, b, offset, data);
  }

  lemma WrittenIsStranded(u: State, b: nat, offset: nat, data: seq<Byte>)
    requires Inv(u) && b < |u.index| && HasE(u, b) && HasD(u, b) && u.order[0] == u.index[b].encrypt.id
    requires offset <= BLK_SIZE
    ensures var t := WriteNode(u, Target(u, b, true), offset, data);
            Stranded(t) && t.nodes[t.order[0]].blk == b
  {
  }

  /** So the first write after start-up never survives an immediate shutdown, unless it
      wrote what was there already. */
  lemma StopLosesWrite(c: Ecb, count: nat, dev: seq<Stored>, b: nat, offset: nat, data: seq<Byte>)
    requires 2 <= count && b < |dev| && offset <= BLK_SIZE
    ensures var s := Initial(c, count, dev);
            && Inv(s)
            && var t := Write(s, b, offset, data);
               DevRead(FlushAndStop(t), b) == EncBlock(c, b, Plain(t, b)) <==> Plain(t, b) == Plain(s, b)
  {
    var s := Initial(c, count, dev);
    InitialInv(c, count, dev);
    var t := Write(s, b, offset, data);
    WriteRefines(s, b, offset, data);
    WriteStrands(s, b, offset, data);
    StopPersists(t, b);
    Inverse(c, b, DevRead(s, b));
    Inverse(c, b, Plain(t, b));
    assert Known(s, b, Ciphertext(t, b));
  }
}
