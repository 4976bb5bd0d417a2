/**
 The write-back cache of a storage node as a state machine (bfss_sn/bfss_node.cpp,
 bfss_sn/bfss_node.h, bfss_sn/bfss_cache.cpp).

 A device block may be cached by a ciphertext node (E) and by a plaintext node (D) whose
 `enc` field names E. All nodes share one LRU order; a table gives, per block, the two
 nodes that last served it, and its entries may be stale. `access` holds one lock from
 beginning to end, so one access is one step.
 */
module CacheSpec {
  import opened Layout
  import opened Cipher

  datatype Status = Uninited | Inited | Updated

  datatype Ref = Null | Node(id: nat)

  /** `blk` is -1 for a node that has never served a block. */
  datatype CacheNode = CacheNode(blk: int, data: Block, status: Status, enc: Ref)

  datatype Pair = Pair(encrypt: Ref, decrypt: Ref)

  datatype Stored = Unwritten | Written(data: Block)

  /** `order` lists node ids, most recently used first. */
  datatype State = State(c: Ecb, order: seq<nat>, nodes: seq<CacheNode>, index: seq<Pair>, dev: seq<Stored>)

  // ----- the LRU order --------------------------------------------------------------

  function Find(order: seq<nat>, n: nat): (k: nat)
    requires n in order
    ensures k < |order| && order[k] == n
  {
    if order[0] == n then 0 else 1 + Find(order[1..], n)
  }

  function MoveToFront(order: seq<nat>, n: nat): (r: seq<nat>)
    requires n in order
    ensures |r| == |order|
  {
    var k := Find(order, n);
    [n] + order[..k] + order[k + 1..]
  }

  ghost predicate Enumerates(order: seq<nat>, count: nat) {
    && |order| == count
    && (forall i :: 0 <= i < |order| ==> order[i] < count)
    && (forall i, j :: 0 <= i < j < |order| ==> order[i] != order[j])
    && (forall n: nat :: n < count ==> n in order)
  }

  lemma FindAt(order: seq<nat>, count: nat, k: nat)
    requires Enumerates(order, count) && k < count
    ensures Find(order, order[k]) == k
  {
  }

  lemma MoveToFrontEnumerates(order: seq<nat>, count: nat, n: nat)
    requires Enumerates(order, count) && n < count
    ensures Enumerates(MoveToFront(order, n), count) && MoveToFront(order, n)[0] == n
  {
    var moved, k := MoveToFront(order, n), Find(order, n);
    forall m: nat | m < count ensures m in moved {
      var j := Find(order, m);
      if j < k { assert moved[j + 1] == m; } else if j > k { assert moved[j] == m; }
    }
  }

  /** Moving to the front keeps the nodes and the relative order of all the others. */
  lemma MoveToFrontRank(order: seq<nat>, count: nat, n: nat, m: nat)
    requires Enumerates(order, count) && n < count && m < count
    ensures m in MoveToFront(order, n)
    ensures Find(MoveToFront(order, n), m) ==
            if m == n then 0 else if Find(order, m) < Find(order, n) then Find(order, m) + 1 else Find(order, m)
  {
    MoveToFrontEnumerates(order, count, n);
    var moved, j, k := MoveToFront(order, n), Find(order, m), Find(order, n);
    FindAt(moved, count, if m == n then 0 else if j < k then j + 1 else j);
  }

  // ----- well-formed states and single-node steps --------------------------------------

  predicate RefOk(r: Ref, count: nat) { r.Node? ==> r.id < count }

  ghost predicate Shaped(s: State) {
    && 2 <= |s.nodes| && Enumerates(s.order, |s.nodes|)
    && |s.dev| == |s.index|
    && (forall n :: 0 <= n < |s.nodes| ==> -1 <= s.nodes[n].blk < |s.index| && RefOk(s.nodes[n].enc, |s.nodes|))
    && (forall b :: 0 <= b < |s.index| ==> RefOk(s.index[b].encrypt, |s.nodes|) && RefOk(s.index[b].decrypt, |s.nodes|))
  }

  function EncBlock(c: Ecb, b: int, data: Block): Block { Encrypt(c, b, data) }

  function DecBlock(c: Ecb, b: int, data: Block): Block { Decrypt(c, b, data) }

  function StoredData(d: Stored): Block {
    match d case Unwritten => ZeroBlock() case Written(data) => data
  }

  function DevRead(s: State, b: nat): Block
    requires b < |s.dev|
  {
    StoredData(s.dev[b])
  }

  ghost function ToFront(s: State, n: nat): (r: State)
    requires Shaped(s) && n < |s.nodes|
    ensures Shaped(r) && r == s.(order := r.order)
  {
    MoveToFrontEnumerates(s.order, |s.nodes|, n);
    s.(order := MoveToFront(s.order, n))
  }

  ghost function Oldest(s: State): nat
    requires Shaped(s)
  {
    s.order[|s.order| - 1]
  }

  ghost function EncryptNode(s: State, n: nat): (r: State)
    requires Shaped(s) && n < |s.nodes| && s.nodes[n].enc.Node?
    ensures Shaped(r)
  {
    var d := s.nodes[n];
    var e := s.nodes[d.enc.id];
    s.(nodes := s.nodes[n := d.(status := Inited)]
                       [d.enc.id := e.(data := EncBlock(s.c, d.blk, d.data), status := Updated)])
  }

  ghost function CacheToBlk(s: State, n: nat): (r: State)
    requires Shaped(s) && n < |s.nodes| && 0 <= s.nodes[n].blk
    ensures Shaped(r)
  {
    var e := s.nodes[n];
    s.(nodes := s.nodes[n := e.(status := Inited)], dev := s.dev[e.blk := Written(e.data)])
  }

  ghost function BlkToCache(s: State, n: nat): (r: State)
    requires Shaped(s) && n < |s.nodes| && 0 <= s.nodes[n].blk
    ensures Shaped(r)
  {
    var e := s.nodes[n];
    s.(nodes := s.nodes[n := e.(data := DevRead(s, e.blk), status := Inited)])
  }

  ghost function DecryptNode(s: State, n: nat): (r: State)
    requires Shaped(s) && n < |s.nodes| && s.nodes[n].enc.Node?
    ensures Shaped(r)
  {
    var d := s.nodes[n];
    var e := s.nodes[d.enc.id];
    s.(nodes := s.nodes[d.enc.id := e.(status := Inited)]
                       [n := d.(data := DecBlock(s.c, d.blk, e.data), status := Inited)])
  }

  ghost function ResetIndex(s: State, n: nat, b: nat, e: Ref): (r: State)
    requires Shaped(s) && n < |s.nodes| && b < |s.index| && RefOk(e, |s.nodes|)
    ensures Shaped(r)
  {
    s.(nodes := s.nodes[n := CacheNode(b, s.nodes[n].data, Uninited, e)])
  }

  ghost predicate CanFlush(s: State, n: nat)
    requires Shaped(s) && n < |s.nodes|
  {
    s.nodes[n].enc.Node? || 0 <= s.nodes[n].blk
  }

  /** `cache_node::flush` under the caller's `is_updated` test: D nodes are only encrypted,
      E nodes are written to the device. */
  ghost function FlushIfUpdated(s: State, n: nat): (r: State)
    requires Shaped(s) && n < |s.nodes|
    ensures Shaped(r) && r == s.(nodes := r.nodes, dev := r.dev) && |r.nodes| == |s.nodes| && |r.dev| == |s.dev|
  {
    if !s.nodes[n].status.Updated? || !CanFlush(s, n) then s
    else if s.nodes[n].enc.Node? then EncryptNode(s, n) else CacheToBlk(s, n)
  }

  // ----- one access ------------------------------------------------------------------

  predicate Serves(s: State, r: Ref, b: int)
    requires RefOk(r, |s.nodes|)
  {
    r.Node? && s.nodes[r.id].blk == b
  }

  ghost function UseExistFirst(s: State, r: Ref, b: nat, plain: bool, require: bool): (t: State)
    requires Shaped(s) && RefOk(r, |s.nodes|)
    ensures Shaped(t) && t == s.(order := t.order)
  {
    if require && Serves(s, r, b) && plain == s.nodes[r.id].enc.Node? then ToFront(s, r.id) else s
  }

  datatype Claim = Claim(s: State, r: Ref, update: bool)

  ghost function OtherwiseUseOldest(s: State, r: Ref, b: nat, require: bool): (k: Claim)
    requires Shaped(s) && RefOk(r, |s.nodes|)
    ensures Shaped(k.s) && RefOk(k.r, |s.nodes|) && (require ==> k.r.Node?)
    ensures k.s == s.(order := k.s.order, nodes := k.s.nodes, dev := k.s.dev)
    ensures |k.s.nodes| == |s.nodes| && |k.s.dev| == |s.dev|
  {
    if !require then
      Claim(s, if Serves(s, r, b) then r else Null, false)
    else
      var update := !Serves(s, r, b);
      var n := if update then Oldest(s) else r.id;
      var flushed := if update then FlushIfUpdated(s, n) else s;
      Claim(ToFront(flushed, n), Node(n), update)
  }

  ghost function Lookup(s: State, b: nat, decrypt: bool): (t: State)
    requires Shaped(s) && b < |s.index|
    ensures Shaped(t) && t == s.(order := t.order)
  {
    UseExistFirst(UseExistFirst(s, s.index[b].decrypt, b, true, decrypt), s.index[b].encrypt, b, false, true)
  }

  ghost function ClaimD(s: State, b: nat, decrypt: bool): (k: Claim)
    requires Shaped(s) && b < |s.index|
    ensures Shaped(k.s) && RefOk(k.r, |s.nodes|) && (decrypt ==> k.r.Node?)
    ensures k.s.index == s.index && |k.s.nodes| == |s.nodes| && |k.s.dev| == |s.dev|
  {
    OtherwiseUseOldest(Lookup(s, b, decrypt), s.index[b].decrypt, b, decrypt)
  }

  ghost function ClaimE(s: State, b: nat, decrypt: bool): (k: Claim)
    requires Shaped(s) && b < |s.index|
    ensures Shaped(k.s) && RefOk(k.r, |s.nodes|) && k.r.Node?
    ensures k.s.index == s.index && |k.s.nodes| == |s.nodes| && |k.s.dev| == |s.dev|
  {
    OtherwiseUseOldest(ClaimD(s, b, decrypt).s, s.index[b].encrypt, b, true)
  }

  ghost function SetIndex(s: State, b: nat, e: Ref, d: Ref): (t: State)
    requires Shaped(s) && b < |s.index| && RefOk(e, |s.nodes|) && RefOk(d, |s.nodes|)
    ensures Shaped(t)
  {
    s.(index := s.index[b := Pair(e, d)])
  }

  ghost function Rebind(s: State, b: nat, d: Claim, e: Claim): (t: State)
    requires Shaped(s) && b < |s.index| && RefOk(e.r, |s.nodes|) && e.r.Node? && RefOk(d.r, |s.nodes|)
    ensures Shaped(t) && t.index == s.index && |t.nodes| == |s.nodes|
  {
    if !d.update && !e.update then s
    else
      var u := if d.r.Node? then ResetIndex(s, d.r.id, b, e.r) else s;
      if e.update then ResetIndex(u, e.r.id, b, Null) else u
  }

  ghost function GetCacheIndex(s: State, b: nat, decrypt: bool): (t: State)
    requires Shaped(s) && b < |s.index|
    ensures Shaped(t) && |t.index| == |s.index| && |t.nodes| == |s.nodes|
    ensures t.index[b].encrypt.Node? && (decrypt ==> t.index[b].decrypt.Node?)
  {
    var d, e := ClaimD(s, b, decrypt), ClaimE(s, b, decrypt);
    Rebind(SetIndex(e.s, b, e.r, d.r), b, d, e)
  }

  /** Loads the ciphertext if the claimed node is empty. */
  ghost function LoadE(s: State, b: nat): (t: State)
    requires Shaped(s) && b < |s.index| && s.index[b].encrypt.Node?
    ensures Shaped(t) && t.index == s.index && |t.nodes| == |s.nodes|
  {
    var e := s.index[b].encrypt.id;
    if s.nodes[e].status.Uninited? && 0 <= s.nodes[e].blk then BlkToCache(s, e) else s
  }

  /** Loads the plaintext if the claimed node is empty, after saving a dirty ciphertext. */
  ghost function LoadD(s: State, b: nat): (t: State)
    requires Shaped(s) && b < |s.index| && s.index[b].encrypt.Node? && s.index[b].decrypt.Node?
    ensures Shaped(t) && t.index == s.index && |t.nodes| == |s.nodes|
  {
    var e, d := s.index[b].encrypt.id, s.index[b].decrypt.id;
    if s.nodes[d].status.Uninited? && s.nodes[d].enc.Node? then
      DecryptNode(if s.nodes[e].status.Updated? && 0 <= s.nodes[e].blk then CacheToBlk(s, e) else s, d)
    else s
  }

  /** Encrypts a dirty plaintext before its ciphertext is read. */
  ghost function SavePlaintext(s: State, b: nat): (t: State)
    requires Shaped(s) && b < |s.index|
    ensures Shaped(t) && t.index == s.index && |t.nodes| == |s.nodes|
  {
    var d := s.index[b].decrypt;
    if d.Node? && s.nodes[d.id].enc.Node? && s.nodes[d.id].status.Updated? then EncryptNode(s, d.id) else s
  }

  /** Brings the claimed nodes up to date for the caller. */
  ghost function Load(s: State, b: nat, decrypt: bool): (t: State)
    requires Shaped(s) && b < |s.index| && s.index[b].encrypt.Node? && (decrypt ==> s.index[b].decrypt.Node?)
    ensures Shaped(t) && t.index == s.index && |t.nodes| == |s.nodes|
  {
    var u := LoadE(s, b);
    if decrypt then LoadD(u, b) else SavePlaintext(u, b)
  }

  ghost function GetNode(s: State, b: nat, decrypt: bool): (t: State)
    requires Shaped(s) && b < |s.index|
    ensures Shaped(t) && |t.index| == |s.index| && |t.nodes| == |s.nodes|
    ensures t.index[b].encrypt.Node? && (decrypt ==> t.index[b].decrypt.Node?)
  {
    Load(GetCacheIndex(s, b, decrypt), b, decrypt)
  }

  /** The node the caller's action runs on. */
  ghost function Target(s: State, b: nat, decrypt: bool): (n: nat)
    requires Shaped(s) && b < |s.index| && s.index[b].encrypt.Node? && (decrypt ==> s.index[b].decrypt.Node?)
    ensures n < |s.nodes|
  {
    if decrypt then s.index[b].decrypt.id else s.index[b].encrypt.id
  }
}
