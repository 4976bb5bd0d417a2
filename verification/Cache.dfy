/**
 The cache in its own form: nodes updated in place, one circular doubly linked LRU list,
 a table of possibly stale pointers. Every method is tied to the step of `CacheSpec` it
 performs; the storage node's assertions are the methods' preconditions.
 */
module Cache {
  import opened Layout
  import opened Cipher
  import opened Device
  import S = CacheSpec
  import I = CacheInvariant
  import A = CacheAccess
  import R = CacheRuns
  import T = CacheStop
  import CacheAsserts

  class CacheNode {
    const cacheIndex: nat
    var blkIndex: int
    var blkData: Block
    var encrypted: CacheNode?
    var status: S.Status
    var prev: CacheNode
    var next: CacheNode

    constructor (i: nat)
      ensures cacheIndex == i && prev == this && next == this
      ensures View() == S.CacheNode(-1, ZeroBlock(), S.Uninited, S.Null)
    {
      cacheIndex, blkIndex, blkData, encrypted, status := i, -1, ZeroBlock(), null, S.Uninited;
      prev, next := this, this;
    }

    ghost function View(): S.CacheNode
      reads `blkIndex, `blkData, `status, `encrypted
    {
      S.CacheNode(blkIndex, blkData, status, RefOf(encrypted))
    }

    method Write(index: int, offset: nat, data: seq<Byte>) returns (size: nat)
      requires encrypted != null && blkIndex == index && status != S.Uninited
      requires offset <= BLK_SIZE
      modifies this`blkData, this`status
      ensures size == R.Clip(offset, |data|)
      ensures View() == old(View()).(data := R.Patch(old(blkData), offset, data[..size]), status := S.Updated)
    {
      size := |data|;
      if size + offset > BLK_SIZE { size := BLK_SIZE - offset; }
      blkData := blkData[..offset] + data[..size] + blkData[offset + size..];
      status := S.Updated;
    }

    function Read(index: int, offset: nat, size: nat, decrypt: bool): (data: seq<Byte>)
      requires decrypt == (encrypted != null) && blkIndex == index && status != S.Uninited
      requires offset <= BLK_SIZE
      reads this
    {
      var realSize := if size + offset > BLK_SIZE then BLK_SIZE - offset else size;
      blkData[offset..offset + realSize]
    }

    method BlkToCache(dev: BlkDevice)
      requires encrypted == null && status == S.Uninited
      requires dev.Valid() && 0 <= blkIndex < |dev.Blocks()|
      modifies this`blkData, this`status
      ensures View() == old(View()).(data := S.StoredData(dev.Blocks()[blkIndex]), status := S.Inited)
    {
      var ok;
      ok, blkData := dev.ReadBlk(blkIndex);
      assert ok;
      status := S.Inited;
    }

    method CacheToBlk(dev: BlkDevice)
      requires encrypted == null && status == S.Updated
      requires dev.Valid() && 0 <= blkIndex < |dev.Blocks()|
      modifies this`status, dev`disk, dev.bits
      ensures dev.Valid() && dev.Blocks() == old(dev.Blocks())[blkIndex := S.Written(blkData)]
      ensures View() == old(View()).(status := S.Inited)
    {
      var ok := dev.WriteBlk(blkIndex, blkData);
      assert ok;
      status := S.Inited;
    }

    method EncryptInto(c: Ecb)
      requires encrypted != null && encrypted != this && encrypted.blkIndex == blkIndex
      modifies this`status, encrypted`blkData, encrypted`status
      ensures View() == old(View()).(status := S.Inited)
      ensures encrypted.View() == old(encrypted.View()).(data := S.EncBlock(c, blkIndex, blkData), status := S.Updated)
      ensures forall u: nat :: 16 * u + 16 <= BLK_SIZE ==>
                encrypted.blkData[16 * u..16 * u + 16] == c.enc(blkIndex, blkData[16 * u..16 * u + 16])
    {
      forall u: nat | 16 * u + 16 <= BLK_SIZE
        ensures Encrypt(c, blkIndex, blkData)[16 * u..16 * u + 16] == c.enc(blkIndex, blkData[16 * u..16 * u + 16])
      {
        EncryptsUnits(c, blkIndex, blkData, u);
      }
      encrypted.blkData := Encrypt(c, blkIndex, blkData);
      status := S.Inited;
      encrypted.status := S.Updated;
    }

    method DecryptFrom(c: Ecb)
      requires encrypted != null && encrypted != this && encrypted.blkIndex == blkIndex
      modifies this`blkData, this`status, encrypted`status
      ensures View() == old(View()).(data := S.DecBlock(c, blkIndex, encrypted.blkData), status := S.Inited)
      ensures encrypted.View() == old(encrypted.View()).(status := S.Inited)
      ensures forall u: nat :: 16 * u + 16 <= BLK_SIZE ==>
                blkData[16 * u..16 * u + 16] == c.dec(blkIndex, encrypted.blkData[16 * u..16 * u + 16])
    {
      var text := encrypted.blkData;
      forall u: nat | 16 * u + 16 <= BLK_SIZE
        ensures Decrypt(c, blkIndex, text)[16 * u..16 * u + 16] == c.dec(blkIndex, text[16 * u..16 * u + 16])
      {
        DecryptsUnits(c, blkIndex, text, u);
      }
      blkData := Decrypt(c, blkIndex, encrypted.blkData);
      encrypted.status := S.Inited;
      status := S.Inited;
    }

    method ResetIndex(index: int, encryptedNode: CacheNode?)
      requires status != S.Updated
      modifies this`blkIndex, this`status, this`encrypted
      ensures View() == S.CacheNode(index, blkData, S.Uninited, RefOf(encryptedNode)) && encrypted == encryptedNode
    {
      blkIndex := index;
      status := S.Uninited;
      encrypted := encryptedNode;
    }
  }

  ghost function RefOf(n: CacheNode?): S.Ref { if n == null then S.Null else S.Node(n.cacheIndex) }

  // ----- the LRU ring ------------------------------------------------------------------

  /** `r` lists a circular doubly linked list along `next`. */
  ghost predicate IsRing(r: seq<CacheNode>)
    reads r`prev, r`next
  {
    && 1 <= |r|
    && (forall i, j :: 0 <= i < j < |r| ==> r[i] != r[j])
    && (forall i {:trigger r[i].next} :: 0 <= i < |r| ==> r[i].next == r[Up(|r|, i)])
    && (forall i {:trigger r[i].prev} :: 0 <= i < |r| ==> r[i].prev == r[Down(|r|, i)])
  }

  ghost function Without(r: seq<CacheNode>, k: nat): seq<CacheNode> {
    if k < |r| then r[..k] + r[k + 1..] else r
  }

  ghost predicate Member(r: seq<CacheNode>, k: nat, node: CacheNode)
    reads node`prev, node`next
  {
    if k < |r| then node == r[k] else node !in r && node.next == node && node.prev == node
  }

  /** The nodes on both sides of `node` take each other as neighbours; on a node that is a
      ring of its own this does nothing. */
  method Unlink(node: CacheNode, ghost r: seq<CacheNode>, ghost k: nat)
    requires IsRing(r) && k < |r| && node == r[k] && (|r| == 1 || k != 0)
    modifies r`prev, r`next
    ensures |r| == 1 ==> node.next == node && node.prev == node
    ensures |r| != 1 ==> IsRing(Without(r, k))
  {
    ghost var a := Up(|r|, k);
    assert node.next == r[a] && node.prev == r[Down(|r|, k)];
    node.next.prev := node.prev;
    node.prev.next := node.next;
    if |r| != 1 {
      forall i | 0 <= i < |r| && i != k
        ensures r[i].prev == if i == a then r[k - 1] else r[Down(|r|, i)]
        ensures r[i].next == if i == k - 1 then r[a] else r[Up(|r|, i)]
      {
        assert old(r[i].prev) == r[Down(|r|, i)] && old(r[i].next) == r[Up(|r|, i)];
        assert i != a ==> r[i] != r[a];
        assert i != k - 1 ==> r[i] != r[k - 1];
      }
      GapClosed(r, k);
    }
  }

  function Up(n: nat, i: nat): nat { if i + 1 == n then 0 else i + 1 }

  function Down(n: nat, i: nat): int { if i == 0 then n - 1 else i - 1 }

  lemma GapClosed(r: seq<CacheNode>, k: nat)
    requires 1 <= k < |r| && (forall i, j :: 0 <= i < j < |r| ==> r[i] != r[j])
    requires forall i :: 0 <= i < |r| && i != k ==>
               r[i].next == if i == k - 1 then r[Up(|r|, k)] else r[Up(|r|, i)]
    requires forall i :: 0 <= i < |r| && i != k ==>
               r[i].prev == if i == Up(|r|, k) then r[k - 1] else r[Down(|r|, i)]
    ensures IsRing(Without(r, k))
  {
    var m := Without(r, k);
    forall i | 0 <= i < |m|
      ensures m[i].next == m[Up(|m|, i)] && m[i].prev == m[Down(|m|, i)]
    {
      if i < k {
        assert m[i] == r[i];
      } else {
        assert m[i] == r[i + 1];
      }
    }
  }

  /** `node` enters the ring between the oldest node and the latest one. */
  method LinkFirst(latest: CacheNode, node: CacheNode, ghost q: seq<CacheNode>)
    requires IsRing(q) && latest == q[0] && node !in q
    modifies q`prev, q`next, node`prev, node`next
    ensures IsRing([node] + q)
  {
    assert latest.prev == q[|q| - 1];
    latest.prev.next := node;
    node.prev := latest.prev;

    latest.prev := node;
    node.next := latest;
    ghost var m := [node] + q;
    forall i | 0 <= i < |m|
      ensures m[i].next == m[Up(|m|, i)] && m[i].prev == m[Down(|m|, i)]
    {
      assert m[i] == if i == 0 then node else q[i - 1];
    }
  }

  /** `update_list`, on the ring's k-th node or on a single node outside it: one ring, the
      given node first, all other relative order unchanged. */
  method UpdateList(latest: CacheNode, node: CacheNode, ghost r: seq<CacheNode>, ghost k: nat)
    returns (newLatest: CacheNode)
    requires IsRing(r) && latest == r[0] && Member(r, k, node)
    modifies r`prev, r`next, node`prev, node`next
    ensures newLatest == node && IsRing([node] + Without(r, k))
  {
    newLatest := node;
    if node == latest {
      assert [node] + Without(r, k) == r;
    } else {
      Unlink(node, if k < |r| then r else [node], if k < |r| then k else 0);
      LinkFirst(latest, node, Without(r, k));
    }
  }

  /** Fresh nodes: free, numbered in order. */
  ghost predicate AllFree(nodes: seq<CacheNode>)
    reads nodes`blkIndex, nodes`blkData, nodes`status, nodes`encrypted
  {
    forall i :: 0 <= i < |nodes| ==>
      nodes[i].cacheIndex == i && nodes[i].encrypted == null
      && nodes[i].View() == S.CacheNode(-1, ZeroBlock(), S.Uninited, S.Null)
  }

  /** The nodes of a cache, each a ring of its own. */
  method MakeNodes(count: nat) returns (nodes: seq<CacheNode>)
    ensures |nodes| == count && fresh(nodes) && AllFree(nodes)
    ensures forall i :: 0 <= i < count ==> nodes[i].prev == nodes[i] && nodes[i].next == nodes[i]
  {
    nodes := [];
    for i := 0 to count
      invariant |nodes| == i && fresh(nodes) && AllFree(nodes)
      invariant forall j :: 0 <= j < i ==> nodes[j].prev == nodes[j] && nodes[j].next == nodes[j]
    {
      var n := new CacheNode(i);
      nodes := nodes + [n];
    }
  }

  lemma ArrangeMoved(nodes: seq<CacheNode>, order: seq<nat>, n: nat)
    requires S.Enumerates(order, |nodes|) && n < |nodes|
    ensures S.Enumerates(S.MoveToFront(order, n), |nodes|)
    ensures Arrange(nodes, S.MoveToFront(order, n))
            == [nodes[n]] + Without(Arrange(nodes, order), S.Find(order, n))
  {
    S.MoveToFrontEnumerates(order, |nodes|, n);
    var k, moved := S.Find(order, n), S.MoveToFront(order, n);
    var old', new' := Arrange(nodes, order), Arrange(nodes, moved);
    forall i | 0 <= i < |new'| ensures new'[i] == ([nodes[n]] + Without(old', k))[i] {
      assert moved[i] == if i == 0 then n else if i <= k then order[i - 1] else order[i];
    }
  }

  ghost function Backwards(nodes: seq<CacheNode>, k: nat): (r: seq<CacheNode>)
    requires k <= |nodes|
    ensures |r| == k && forall i :: 0 <= i < k ==> r[i] == nodes[k - 1 - i]
  {
    seq(k, i requires 0 <= i < k => nodes[k - 1 - i])
  }

  lemma BackwardsStep(nodes: seq<CacheNode>, i: nat)
    requires i < |nodes| && forall i, j :: 0 <= i < j < |nodes| ==> nodes[i] != nodes[j]
    ensures Backwards(nodes, i + 1) == [nodes[i]] + Without(Backwards(nodes, i), i)
    ensures forall j :: i <= j < |nodes| ==> nodes[j] !in Backwards(nodes, i)
  {
  }

  /** Fresh nodes, linked into one ring. */
  method MakeRing(count: nat) returns (nodes: seq<CacheNode>, latest: CacheNode)
    requires 1 <= count
    ensures |nodes| == count && fresh(nodes) && AllFree(nodes)
    ensures IsRing(Backwards(nodes, |nodes|)) && latest == nodes[|nodes| - 1]
  {
    nodes := MakeNodes(count);
    latest := LinkAll(nodes);
  }

  /** The loop of `init` that moves every node to the front in turn. */
  method LinkAll(nodes: seq<CacheNode>) returns (latest: CacheNode)
    requires 1 <= |nodes| && forall i, j :: 0 <= i < j < |nodes| ==> nodes[i] != nodes[j]
    requires forall i :: 0 <= i < |nodes| ==> nodes[i].prev == nodes[i] && nodes[i].next == nodes[i]
    modifies nodes`prev, nodes`next
    ensures IsRing(Backwards(nodes, |nodes|)) && latest == nodes[|nodes| - 1]
  {
    latest := nodes[0];
    for i := 1 to |nodes|
      invariant IsRing(Backwards(nodes, i)) && latest == nodes[i - 1]
      invariant forall j :: i <= j < |nodes| ==> nodes[j].prev == nodes[j] && nodes[j].next == nodes[j]
    {
      ghost var r := Backwards(nodes, i);
      BackwardsStep(nodes, i);
      latest := UpdateList(latest, nodes[i], r, i);
    }
  }

  ghost function Arrange(nodes: seq<CacheNode>, order: seq<nat>): (r: seq<CacheNode>)
    requires forall i :: 0 <= i < |order| ==> order[i] < |nodes|
    ensures |r| == |order| && forall i :: 0 <= i < |r| ==> r[i] == nodes[order[i]]
  {
    seq(|order|, i requires 0 <= i < |order| => nodes[order[i]])
  }

  // ----- the indexed list ----------------------------------------------------------------

  datatype LruIndex = LruIndex(encrypt: CacheNode?, decrypt: CacheNode?)

  ghost function Pairs(index: seq<LruIndex>): (p: seq<S.Pair>)
    ensures |p| == |index|
    ensures forall b :: 0 <= b < |p| ==> p[b] == S.Pair(RefOf(index[b].encrypt), RefOf(index[b].decrypt))
  {
    seq(|index|, b requires 0 <= b < |index| => S.Pair(RefOf(index[b].encrypt), RefOf(index[b].decrypt)))
  }

  ghost function Views(nodes: seq<CacheNode>): (v: seq<S.CacheNode>)
    reads nodes`blkIndex, nodes`blkData, nodes`status, nodes`encrypted
    ensures |v| == |nodes| && forall i :: 0 <= i < |v| ==> v[i] == nodes[i].View()
  {
    if nodes == [] then [] else [nodes[0].View()] + Views(nodes[1..])
  }

  class LruIndexableList {
    const c: Ecb
    const device: BlkDevice
    const nodes: seq<CacheNode>
    var latest: CacheNode
    var index: seq<LruIndex>
    ghost var order: seq<nat>

    ghost predicate Owns(n: CacheNode?) {
      n != null ==> n.cacheIndex < |nodes| && nodes[n.cacheIndex] == n
    }

    ghost predicate Linked()
      reads this`latest, this`order, nodes`prev, nodes`next
    {
      && 2 <= |nodes| && S.Enumerates(order, |nodes|)
      && (forall i :: 0 <= i < |nodes| ==> nodes[i].cacheIndex == i)
      && IsRing(Arrange(nodes, order)) && latest == nodes[order[0]]
    }

    /** Every pointer names a node of this cache. */
    ghost predicate Closed()
      reads `index, nodes`encrypted
    {
      && (forall i :: 0 <= i < |nodes| ==> Owns(nodes[i].encrypted))
      && (forall b :: 0 <= b < |index| ==> Owns(index[b].encrypt) && Owns(index[b].decrypt))
    }

    ghost predicate Valid()
      reads this, nodes, device, device.bits
    {
      && Linked()
      && Closed()
      && device.Valid() && |index| <= |device.Blocks()|
      && S.Shaped(Abs())
    }

    /** The abstract state. */
    ghost function Abs(): S.State
      requires device.Valid() && |index| <= |device.Blocks()|
      reads `order, `index, nodes`blkIndex, nodes`blkData, nodes`status, nodes`encrypted, device, device.bits
    {
      S.State(c, order, Views(nodes), Pairs(index), device.Blocks()[..|index|])
    }

    /** `init`: all nodes in one ring, the last one most recent, no index entries. */
    constructor (c: Ecb, device: BlkDevice, cacheCount: nat, blkCount: nat)
      requires 2 <= cacheCount && device.Valid() && blkCount <= |device.Blocks()|
      ensures Valid() && fresh(nodes) && this.device == device
      ensures Abs() == R.Initial(c, cacheCount, Abs().dev) && Abs().dev == device.Blocks()[..blkCount]
    {
      this.c, this.device := c, device;
      var made, last := MakeRing(cacheCount);
      nodes, latest := made, last;
      index := seq(blkCount, _ => LruIndex(null, null));
      order := R.Countdown(cacheCount);
      new;
      InitialView();
    }

    lemma InitialView()
      requires device.Valid() && |index| <= |device.Blocks()| && 2 <= |nodes| && order == R.Countdown(|nodes|)
      requires AllFree(nodes)
      requires forall b :: 0 <= b < |index| ==> index[b] == LruIndex(null, null)
      requires IsRing(Backwards(nodes, |nodes|)) && latest == nodes[|nodes| - 1]
      ensures Valid() && Abs() == R.Initial(c, |nodes|, Abs().dev) && Abs().dev == device.Blocks()[..|index|]
    {
      assert Arrange(nodes, order) == Backwards(nodes, |nodes|);
      var s := R.Initial(c, |nodes|, Abs().dev);
      R.InitialInv(c, |nodes|, Abs().dev);
      assert Abs().nodes == s.nodes;
      assert Abs().index == s.index;
      assert Abs() == s;
    }

    // ----- single-node steps ---------------------------------------------------------------

    method MoveFront(node: CacheNode)
      requires Valid() && Owns(node)
      modifies `latest, `order, nodes`prev, nodes`next
      ensures Valid() && Abs() == S.ToFront(old(Abs()), node.cacheIndex)
    {
      ghost var s := Abs();
      Relink(node);
      assert Abs() == S.ToFront(s, node.cacheIndex);
    }

    method Relink(node: CacheNode)
      requires Linked() && Owns(node)
      modifies `latest, `order, nodes`prev, nodes`next
      ensures Linked() && order == S.MoveToFront(old(order), node.cacheIndex)
    {
      ghost var n, o := node.cacheIndex, order;
      ghost var r, k := Arrange(nodes, o), S.Find(o, n);
      latest := UpdateList(latest, node, r, k);
      order := S.MoveToFront(o, n);
      ArrangeMoved(nodes, o, n);
    }

    method EncryptAt(node: CacheNode)
      requires Valid() && Owns(node) && node.encrypted != null
      requires node.encrypted != node && node.encrypted.blkIndex == node.blkIndex
      modifies nodes`blkData, nodes`status
      ensures Valid() && Abs() == S.EncryptNode(old(Abs()), node.cacheIndex)
    {
      node.EncryptInto(c);
      assert Abs().nodes == S.EncryptNode(old(Abs()), node.cacheIndex).nodes;
    }

    method DecryptAt(node: CacheNode)
      requires Valid() && Owns(node) && node.encrypted != null
      requires node.encrypted != node && node.encrypted.blkIndex == node.blkIndex
      modifies nodes`blkData, nodes`status
      ensures Valid() && Abs() == S.DecryptNode(old(Abs()), node.cacheIndex)
    {
      node.DecryptFrom(c);
      assert Abs().nodes == S.DecryptNode(old(Abs()), node.cacheIndex).nodes;
    }

    method WriteBackAt(node: CacheNode)
      requires Valid() && Owns(node) && node.encrypted == null && node.status == S.Updated && 0 <= node.blkIndex
      modifies nodes`status, device`disk, device.bits
      ensures Valid() && Abs() == S.CacheToBlk(old(Abs()), node.cacheIndex)
    {
      node.CacheToBlk(device);
      assert Abs().nodes == S.CacheToBlk(old(Abs()), node.cacheIndex).nodes;
      assert Abs().dev == S.CacheToBlk(old(Abs()), node.cacheIndex).dev;
    }

    method LoadAt(node: CacheNode)
      requires Valid() && Owns(node) && node.encrypted == null && node.status == S.Uninited && 0 <= node.blkIndex
      modifies nodes`blkData, nodes`status
      ensures Valid() && Abs() == S.BlkToCache(old(Abs()), node.cacheIndex)
    {
      node.BlkToCache(device);
      assert Abs().nodes == S.BlkToCache(old(Abs()), node.cacheIndex).nodes;
    }

    method ResetAt(node: CacheNode, b: nat, encryptedNode: CacheNode?)
      requires Valid() && Owns(node) && Owns(encryptedNode) && b < |index| && node.status != S.Updated
      modifies nodes`blkIndex, nodes`status, nodes`encrypted
      ensures Valid() && Abs() == S.ResetIndex(old(Abs()), node.cacheIndex, b, RefOf(encryptedNode))
    {
      node.ResetIndex(b, encryptedNode);
      forall i | 0 <= i < |nodes| ensures Owns(nodes[i].encrypted) {
        assert nodes[i] != node ==> nodes[i].encrypted == old(nodes[i].encrypted) && Owns(old(nodes[i].encrypted));
      }
      assert Abs().nodes == S.ResetIndex(old(Abs()), node.cacheIndex, b, RefOf(encryptedNode)).nodes;
    }

    /** `cache_node::flush`. */
    method Flush(node: CacheNode)
      requires Valid() && Owns(node) && node.status == S.Updated && CacheAsserts.Sound(Abs(), node.cacheIndex)
      modifies nodes`blkData, nodes`status, device`disk, device.bits
      ensures Valid() && Abs() == S.FlushIfUpdated(old(Abs()), node.cacheIndex)
    {
      assert Abs().nodes[node.cacheIndex] == node.View();
      if node.encrypted != null {
        assert Abs().nodes[node.encrypted.cacheIndex] == node.encrypted.View();
        EncryptAt(node);
      } else {
        WriteBackAt(node);
      }
    }

    // ----- one access -------------------------------------------------------------------------

    lemma Seen(n: CacheNode)
      requires Valid() && Owns(n)
      ensures Abs().nodes[n.cacheIndex] == n.View()
      ensures n.encrypted != null ==> Abs().nodes[n.encrypted.cacheIndex] == n.encrypted.View()
    {
    }

    method UseExistFirst(n: CacheNode?, b: nat, plain: bool, require: bool)
      requires Valid() && Owns(n)
      modifies `latest, `order, nodes`prev, nodes`next
      ensures Valid() && Abs() == S.UseExistFirst(old(Abs()), RefOf(n), b, plain, require)
    {
      if n != null { Seen(n); }
      if require && n != null && n.blkIndex == b && plain == (n.encrypted != null) {
        MoveFront(n);
      }
    }

    method OtherwiseUseOldest(n: CacheNode?, b: nat, require: bool) returns (r: CacheNode?, update: bool)
      requires Valid() && Owns(n)
      requires require ==> CacheAsserts.Sound(Abs(), S.Oldest(Abs()))
      modifies `latest, `order, nodes`prev, nodes`next, nodes`blkData, nodes`status, device`disk, device.bits
      ensures Valid() && Owns(r)
      ensures S.Claim(Abs(), RefOf(r), update) == S.OtherwiseUseOldest(old(Abs()), RefOf(n), b, require)
    {
      if n != null { Seen(n); }
      if !require {
        return if n != null && n.blkIndex != b then null else n, false;
      }
      r, update := n, false;
      if n == null || n.blkIndex != b {
        r := latest.prev;
        update := true;
      }
      assert r == nodes[if update then S.Oldest(Abs()) else n.cacheIndex];
      Seen(r);
      if update && r.status == S.Updated {
        Flush(r);
      }
      MoveFront(r);
    }

    /** The two passes of `get_cache_index`: existing nodes first, then the oldest ones. */
    method ClaimNodes(b: nat, decrypt: bool)
      returns (d: CacheNode?, updateDecrypt: bool, e: CacheNode?, updateEncrypt: bool)
      requires Valid() && b < |index| && CacheAsserts.ClaimsSound(Abs(), b, decrypt)
      modifies `latest, `order, nodes`prev, nodes`next, nodes`blkData, nodes`status, device`disk, device.bits
      ensures Valid() && Owns(d) && Owns(e)
      ensures S.Claim(old(Abs()), RefOf(d), updateDecrypt) ==
              S.ClaimD(old(Abs()), b, decrypt).(s := old(Abs()))
      ensures S.Claim(Abs(), RefOf(e), updateEncrypt) == S.ClaimE(old(Abs()), b, decrypt)
    {
      ghost var s := Abs();
      var pair := index[b];
      UseExistFirst(pair.decrypt, b, true, decrypt);
      UseExistFirst(pair.encrypt, b, false, true);
      assert Abs() == S.Lookup(s, b, decrypt);
      d, updateDecrypt := OtherwiseUseOldest(pair.decrypt, b, decrypt);
      assert S.Claim(Abs(), RefOf(d), updateDecrypt) == S.ClaimD(s, b, decrypt);
      e, updateEncrypt := OtherwiseUseOldest(pair.encrypt, b, true);
    }

    method GetCacheIndex(b: nat, decrypt: bool)
      requires Valid() && b < |index| && CacheAsserts.ClaimsSound(Abs(), b, decrypt)
      modifies `latest, `order, `index, nodes, device`disk, device.bits
      ensures Valid() && Abs() == S.GetCacheIndex(old(Abs()), b, decrypt)
    {
      ghost var claimD, claimE := S.ClaimD(Abs(), b, decrypt), S.ClaimE(Abs(), b, decrypt);
      var d, updateDecrypt, e, updateEncrypt := ClaimNodes(b, decrypt);
      SetPair(b, e, d);
      if d != null { Seen(d); }
      Seen(e);
      Rebind(b, d, updateDecrypt, e, updateEncrypt, claimD, claimE);
    }

    method SetPair(b: nat, e: CacheNode?, d: CacheNode?)
      requires Valid() && b < |index| && Owns(e) && Owns(d)
      modifies `index
      ensures Valid() && Abs() == S.SetIndex(old(Abs()), b, RefOf(e), RefOf(d))
    {
      index := index[b := LruIndex(e, d)];
      assert Pairs(index) == S.SetIndex(old(Abs()), b, RefOf(e), RefOf(d)).index;
    }

    method Rebind(b: nat, d: CacheNode?, updateDecrypt: bool, e: CacheNode, updateEncrypt: bool,
                  ghost claimD: S.Claim, ghost claimE: S.Claim)
      requires Valid() && b < |index| && Owns(d) && Owns(e) && d != e
      requires claimD.r == RefOf(d) && claimD.update == updateDecrypt
      requires claimE.r == RefOf(e) && claimE.update == updateEncrypt
      requires (updateDecrypt || updateEncrypt) && d != null ==> d.status != S.Updated
      requires updateEncrypt ==> e.status != S.Updated
      modifies nodes`blkIndex, nodes`status, nodes`encrypted
      ensures Valid() && Abs() == S.Rebind(old(Abs()), b, claimD, claimE)
    {
      if updateDecrypt || updateEncrypt {
        if d != null {
          ResetAt(d, b, e);
          Seen(e);
        }
        if updateEncrypt {
          ResetAt(e, b, null);
        }
      }
    }

    lemma BoundNodes(b: nat, decrypt: bool)
      requires Valid() && b < |index| && index[b].encrypt != null && (decrypt ==> index[b].decrypt != null)
      requires CacheAsserts.Bound(Abs(), b, decrypt)
      ensures index[b].encrypt.encrypted == null && index[b].encrypt.blkIndex == b
      ensures index[b].decrypt != null ==>
                && index[b].decrypt.encrypted == index[b].encrypt
                && index[b].decrypt.blkIndex == b && index[b].decrypt != index[b].encrypt
    {
      Seen(index[b].encrypt);
      if index[b].decrypt != null {
        Seen(index[b].decrypt);
        assert Owns(index[b].decrypt.encrypted);
      }
    }

    method LoadE(b: nat)
      requires Valid() && b < |index| && index[b].encrypt != null
      requires index[b].encrypt.encrypted == null && index[b].encrypt.blkIndex == b
      modifies nodes`blkData, nodes`status
      ensures Valid() && Abs() == S.LoadE(old(Abs()), b)
    {
      Seen(index[b].encrypt);
      if index[b].encrypt.status == S.Uninited {
        LoadAt(index[b].encrypt);
      }
    }

    method LoadD(b: nat)
      requires Valid() && b < |index| && index[b].encrypt != null && index[b].decrypt != null
      requires index[b].encrypt.encrypted == null && index[b].encrypt.blkIndex == b
      requires index[b].decrypt.encrypted == index[b].encrypt && index[b].decrypt.blkIndex == b
      requires index[b].decrypt != index[b].encrypt
      modifies nodes`blkData, nodes`status, device`disk, device.bits
      ensures Valid() && Abs() == S.LoadD(old(Abs()), b)
    {
      var e, d := index[b].encrypt, index[b].decrypt;
      Seen(e);
      Seen(d);
      if d.status == S.Uninited {
        if e.status == S.Updated {
          WriteBackAt(e);
        }
        DecryptAt(d);
      }
    }

    /** The second half of `get_node`. */
    method Load(b: nat, decrypt: bool) returns (n: CacheNode)
      requires Valid() && b < |index| && index[b].encrypt != null && (decrypt ==> index[b].decrypt != null)
      requires CacheAsserts.Bound(Abs(), b, decrypt)
      modifies nodes`blkData, nodes`status, device`disk, device.bits
      ensures Valid() && Owns(n) && Abs() == S.Load(old(Abs()), b, decrypt)
      ensures n.cacheIndex == S.Target(Abs(), b, decrypt)
    {
      BoundNodes(b, decrypt);
      LoadE(b);
      if decrypt {
        LoadD(b);
        n := index[b].decrypt;
      } else {
        SavePlaintext(b);
        n := index[b].encrypt;
      }
    }

    method SavePlaintext(b: nat)
      requires Valid() && b < |index|
      requires index[b].decrypt != null ==>
                 && index[b].decrypt.encrypted != null && index[b].decrypt.encrypted != index[b].decrypt
                 && index[b].decrypt.encrypted.blkIndex == index[b].decrypt.blkIndex
      modifies nodes`blkData, nodes`status
      ensures Valid() && Abs() == S.SavePlaintext(old(Abs()), b)
    {
      var d := index[b].decrypt;
      if d != null {
        Seen(d);
        if d.status == S.Updated { EncryptAt(d); }
      }
    }

    method GetNode(b: nat, decrypt: bool) returns (n: CacheNode)
      requires Valid() && I.Inv(Abs()) && b < |index|
      modifies `latest, `order, `index, nodes, device`disk, device.bits
      ensures Valid() && I.Inv(Abs()) && Owns(n) && Abs() == S.GetNode(old(Abs()), b, decrypt)
      ensures |index| == old(|index|) && index[b].encrypt != null && (decrypt ==> index[b].decrypt != null)
      ensures n.cacheIndex == S.Target(Abs(), b, decrypt) && n.blkIndex == b
      ensures n.status != S.Uninited && decrypt == (n.encrypted != null)
    {
      ghost var s := Abs();
      CacheAsserts.AssertsHold(s, b, decrypt);
      A.AccessKeeps(s, b, decrypt);
      GetCacheIndex(b, decrypt);
      n := Load(b, decrypt);
      Seen(n);
      TargetServes(Abs(), b, decrypt);
    }

    // ----- the cache manager --------------------------------------------------------------------

    method WriteAt(node: CacheNode, b: nat, offset: nat, data: seq<Byte>) returns (size: nat)
      requires Valid() && Owns(node) && node.encrypted != null && node.blkIndex == b && node.status != S.Uninited
      requires offset <= BLK_SIZE
      modifies nodes`blkData, nodes`status
      ensures Valid() && Abs() == R.WriteNode(old(Abs()), node.cacheIndex, offset, data)
      ensures size == R.Clip(offset, |data|)
    {
      Seen(node);
      size := node.Write(b, offset, data);
      assert Abs().nodes == R.WriteNode(old(Abs()), node.cacheIndex, offset, data).nodes;
    }

    method Write(b: nat, offset: nat, data: seq<Byte>) returns (size: nat)
      requires Valid() && I.Inv(Abs()) && b < |index| && offset <= BLK_SIZE
      modifies `latest, `order, `index, nodes, device`disk, device.bits
      ensures Valid() && Abs() == R.Write(old(Abs()), b, offset, data)
      ensures size == R.Clip(offset, |data|)
    {
      var n := GetNode(b, true);
      size := WriteAt(n, b, offset, data);
    }

    method Read(b: nat, offset: nat, size: nat, decrypt: bool) returns (data: seq<Byte>)
      requires Valid() && I.Inv(Abs()) && b < |index| && offset <= BLK_SIZE
      modifies `latest, `order, `index, nodes, device`disk, device.bits
      ensures Valid() && Abs() == S.GetNode(old(Abs()), b, decrypt)
      ensures index[b].encrypt != null && (decrypt ==> index[b].decrypt != null)
      ensures data == R.TargetBytes(Abs(), b, offset, size, decrypt)
    {
      var n := GetNode(b, decrypt);
      ReadIs(n, b, offset, size, decrypt);
      data := n.Read(b, offset, size, decrypt);
    }

    /** One operation, tied to the step of the specification. */
    method Apply(op: R.Op) returns (reply: R.Reply)
      requires Valid() && I.Inv(Abs()) && R.OpOk(op, |index|)
      modifies `latest, `order, `index, nodes, device`disk, device.bits
      ensures Valid() && Abs() == R.Step(old(Abs()), op) && |index| == old(|index|)
      ensures reply == R.StepReply(old(Abs()), op)
    {
      ghost var s := Abs();
      match op
      case WriteOp(b, offset, data) =>
        var n := Write(b, offset, data);
        reply := R.Count(n);
      case ReadOp(b, offset, size, decrypt) =>
        var data := Read(b, offset, size, decrypt);
        reply := R.Bytes(data);
        R.ReadReplyIs(s, op, Abs());
      case FlushOp(b) =>
        FlushAsync(b);
        reply := R.Done;
    }

    method ApplyAll(ops: seq<R.Op>) returns (replies: seq<R.Reply>)
      requires Valid() && I.Inv(Abs()) && R.OpsOk(ops, |index|)
      modifies `latest, `order, `index, nodes, device`disk, device.bits
      ensures Valid() && Abs() == R.Run(old(Abs()), ops) && replies == R.Replies(old(Abs()), ops)
    {
      ghost var s := Abs();
      replies := [];
      for i := 0 to |ops|
        invariant Valid() && I.Inv(Abs()) && |index| == |s.index|
        invariant Abs() == R.Run(s, ops[..i]) && replies == R.Replies(s, ops[..i])
      {
        R.RunStep(s, ops, i);
        var reply := Apply(ops[i]);
        replies := replies + [reply];
      }
      assert ops[..|ops|] == ops;
    }

    /** The body of `flush_async` for one queued block. */
    method FlushAsync(b: nat)
      requires Valid() && I.Inv(Abs()) && b < |index|
      modifies `latest, `order, `index, nodes, device`disk, device.bits
      ensures Valid() && Abs() == R.FlushBlock(old(Abs()), b)
    {
      var d := GetNode(b, true);
      FlushIfUpdated(d);
      var e := GetNode(b, false);
      FlushIfUpdated(e);
    }

    method FlushIfUpdated(node: CacheNode)
      requires Valid() && I.Inv(Abs()) && Owns(node)
      modifies nodes`blkData, nodes`status, device`disk, device.bits
      ensures Valid() && I.Inv(Abs()) && Abs() == S.FlushIfUpdated(old(Abs()), node.cacheIndex)
    {
      I.FlushKeeps(Abs(), node.cacheIndex);
      CacheAsserts.InvSound(Abs(), node.cacheIndex);
      Seen(node);
      if node.status == S.Updated {
        Flush(node);
      }
    }

    /** The k-th node of a traversal. */
    ghost function Visit(k: nat, forward: bool): CacheNode
      requires S.Enumerates(order, |nodes|) && k < |nodes|
      reads `order
    {
      nodes[order[if forward || k == 0 then k else |nodes| - k]]
    }

    lemma StepVisits(k: nat, forward: bool)
      requires Linked() && k < |nodes|
      ensures var n := Visit(k, forward);
              var next := if forward then n.next else n.prev;
              if k + 1 == |nodes| then next == latest else next == Visit(k + 1, forward) && next != latest
    {
      var a := Arrange(nodes, order);
      var i := if forward || k == 0 then k else |nodes| - k;
      assert a[i].next == a[Up(|a|, i)];
      assert a[i].prev == a[Down(|a|, i)];
      var next := if forward then a[i].next else a[i].prev;
      var j := if forward then Up(|a|, i) else Down(|a|, i);
      assert next == a[j] && (j == 0 <==> k + 1 == |nodes|);
      assert j != 0 ==> a[j] != a[0];
    }

    /** A full traversal, in either direction, meets every node exactly once. */
    lemma EveryNodeOnce(n: CacheNode, forward: bool)
      requires Linked() && n in nodes
      ensures exists k: nat :: k < |nodes| && Visit(k, forward) == n
      ensures forall j: nat, k: nat ::
                j < |nodes| && k < |nodes| && Visit(j, forward) == n && Visit(k, forward) == n ==> j == k
    {
      var k := S.Find(order, n.cacheIndex);
      assert Visit(if forward || k == 0 then k else |nodes| - k, forward) == n;
    }

    /** `traverse`: starts at the latest node and stops when the action says so. */
    method Traverse(goOn: nat -> bool, forward: bool) returns (visited: seq<CacheNode>)
      requires Linked()
      ensures 1 <= |visited| <= |nodes|
      ensures forall i :: 0 <= i < |visited| ==> visited[i] == Visit(i, forward)
      ensures forall i :: 0 <= i < |visited| - 1 ==> goOn(visited[i].cacheIndex)
      ensures |visited| < |nodes| ==> !goOn(visited[|visited| - 1].cacheIndex)
    {
      var node := latest;
      visited := [];
      while true
        invariant |visited| < |nodes| && node == Visit(|visited|, forward)
        invariant forall i :: 0 <= i < |visited| ==> visited[i] == Visit(i, forward) && goOn(visited[i].cacheIndex)
        decreases |nodes| - |visited|
      {
        visited := visited + [node];
        if !goOn(node.cacheIndex) { break; }
        StepVisits(|visited| - 1, forward);
        node := if forward then node.next else node.prev;
        if node == latest { break; }
      }
    }

    /** `flush_and_stop`: the traversal along `prev` that flushes every dirty node. */
    method FlushAndStop()
      requires Valid() && I.Inv(Abs())
      modifies nodes`blkData, nodes`status, device`disk, device.bits
      ensures Valid() && Abs() == T.FlushAndStop(old(Abs()))
    {
      ghost var chain := T.Chain(Abs());
      FlushIfUpdated(latest);
      FlushOthers(chain);
    }

    method FlushOthers(ghost chain: seq<S.State>)
      requires T.IsChain(chain) && Flushing(chain, |nodes|)
      modifies nodes`blkData, nodes`status, device`disk, device.bits
      ensures Flushing(chain, 1)
    {
      FirstPosition();
      var node := latest.prev;
      ghost var k: nat := |nodes|;
      while node != latest
        invariant Flushing(chain, k) && Position(node, k)
        decreases k
      {
        node, k := FlushVisited(node, chain, k);
      }
    }

    /** The traversal has flushed the latest node and the ranks from `k` on. */
    ghost predicate Flushing(chain: seq<S.State>, k: nat)
      reads this, nodes, device, device.bits
    {
      && Valid() && 1 <= k <= |nodes| && |chain| == |nodes| + 1
      && Abs() == chain[k] && chain[|nodes|].order == order
    }

    /** `node` is the one at rank k - 1, the next to visit. */
    ghost predicate Position(node: CacheNode, k: nat)
      requires S.Enumerates(order, |nodes|)
      reads `order, `latest
    {
      1 <= k <= |nodes| && node == nodes[order[k - 1]] && (node == latest <==> k == 1)
    }

    method FlushVisited(node: CacheNode, ghost chain: seq<S.State>, ghost k: nat)
      returns (next: CacheNode, ghost rank: nat)
      requires T.IsChain(chain) && Flushing(chain, k) && Position(node, k) && 2 <= k
      modifies nodes`blkData, nodes`status, device`disk, device.bits
      ensures rank == k - 1 && Flushing(chain, rank) && Position(next, rank)
    {
      NextPosition(node, k);
      VisitLinks(node, chain, k);
      next, rank := node.prev, k - 1;
      FlushIfUpdated(node);
    }

    lemma VisitLinks(node: CacheNode, chain: seq<S.State>, k: nat)
      requires T.IsChain(chain) && Flushing(chain, k) && Position(node, k) && 2 <= k
      ensures Owns(node) && I.Inv(Abs()) && chain[k - 1] == S.FlushIfUpdated(Abs(), node.cacheIndex)
    {
      assert T.ChainLink(chain, k - 1);
    }

    lemma FirstPosition()
      requires Linked()
      ensures Position(latest.prev, |nodes|)
    {
      StepVisits(0, false);
    }

    lemma NextPosition(node: CacheNode, k: nat)
      requires Linked() && Position(node, k) && 2 <= k
      ensures Position(node.prev, k - 1)
    {
      StepVisits(|nodes| + 1 - k, false);
    }

    lemma ReadIs(n: CacheNode, b: nat, offset: nat, size: nat, decrypt: bool)
      requires Valid() && Owns(n) && n.blkIndex == b && n.status != S.Uninited && decrypt == (n.encrypted != null)
      requires b < |index| && index[b].encrypt != null && (decrypt ==> index[b].decrypt != null)
      requires n.cacheIndex == S.Target(Abs(), b, decrypt) && offset <= BLK_SIZE
      ensures n.Read(b, offset, size, decrypt) == R.TargetBytes(Abs(), b, offset, size, decrypt)
    {
      Seen(n);
    }
  }

  lemma TargetServes(t: S.State, b: nat, decrypt: bool)
    requires I.Inv(t) && b < |t.index| && I.HasE(t, b) && (decrypt ==> I.HasD(t, b))
    ensures var x := t.nodes[S.Target(t, b, decrypt)];
            x.blk == b && !x.status.Uninited? && decrypt == x.enc.Node?
  {
    assert I.PairOk(t, b) && I.NodeOk(t, S.Target(t, b, decrypt));
  }

  method Start(c: Ecb, image: seq<Byte>, count: nat, cacheCount: nat) returns (list: LruIndexableList)
    requires RESERVED <= count && count * BLK_SIZE <= |image| && !(MARK <= image)
    requires BitBytes(count) < RESERVED * BLK_SIZE - |MARK|
    requires count % 128 < 3 || 7 < count % 128
    requires 2 <= cacheCount
    ensures fresh(list) && fresh(list.nodes) && fresh(list.device) && fresh(list.device.bits)
    ensures list.Valid() && I.Inv(list.Abs()) && |list.index| == count - RESERVED
    ensures list.Abs().c == c && R.Blank(list.Abs())
  {
    var device := new BlkDevice(image, count);
    list := new LruIndexableList(c, device, cacheCount, count - RESERVED);
    R.InitialInv(c, cacheCount, list.Abs().dev);
  }

  /** A storage node from start-up on a blank device, through any run: every reply is the one
      a plain array of blocks gives, when each block starts as the decryption of zeros. */
  method RunFresh(c: Ecb, image: seq<Byte>, count: nat, cacheCount: nat, ops: seq<R.Op>)
    returns (replies: seq<R.Reply>)
    requires RESERVED <= count && count * BLK_SIZE <= |image| && !(MARK <= image)
    requires BitBytes(count) < RESERVED * BLK_SIZE - |MARK|
    requires count % 128 < 3 || 7 < count % 128
    requires 2 <= cacheCount && R.OpsOk(ops, count - RESERVED)
    ensures replies == R.ArrayReplies(c, R.BlankArray(c, count - RESERVED), ops)
  {
    var list := Start(c, image, count, cacheCount);
    ghost var s := list.Abs();
    replies := list.ApplyAll(ops);
    R.BlankRun(s, ops);
  }
}
