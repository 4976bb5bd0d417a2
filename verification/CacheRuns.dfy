/**
 Whole runs of the cache: reads, writes and flushes against a plain array of blocks.
 */
module CacheRuns {
  import opened Layout
  import opened Cipher
  import opened CacheSpec
  import opened CacheInvariant
  import opened CacheAccess

  // ----- operations of the cache manager ---------------------------------------------------

  /** The part of a request that fits the block. */
  function Clip(offset: nat, size: nat): nat
    requires offset <= BLK_SIZE
  {
    if size + offset > BLK_SIZE then BLK_SIZE - offset else size
  }

  function Patch(block: Block, offset: nat, data: seq<Byte>): Block
    requires offset + |data| <= BLK_SIZE
  {
    block[..offset] + data + block[offset + |data|..]
  }

  ghost function WriteNode(s: State, n: nat, offset: nat, data: seq<Byte>): (t: State)
    requires Shaped(s) && n < |s.nodes| && offset <= BLK_SIZE
    ensures Shaped(t)
  {
    var x := s.nodes[n];
    s.(nodes := s.nodes[n := x.(data := Patch(x.data, offset, data[..Clip(offset, |data|)]), status := Updated)])
  }

  ghost function Write(s: State, b: nat, offset: nat, data: seq<Byte>): (t: State)
    requires Shaped(s) && b < |s.index| && offset <= BLK_SIZE
    ensures Shaped(t)
  {
    var t := GetNode(s, b, true);
    WriteNode(t, Target(t, b, true), offset, data)
  }

  ghost function ReadReply(s: State, b: nat, offset: nat, size: nat, decrypt: bool): seq<Byte>
    requires Shaped(s) && b < |s.index| && offset <= BLK_SIZE
  {
    TargetBytes(GetNode(s, b, decrypt), b, offset, size, decrypt)
  }

  ghost function TargetBytes(t: State, b: nat, offset: nat, size: nat, decrypt: bool): seq<Byte>
    requires Shaped(t) && b < |t.index| && t.index[b].encrypt.Node? && (decrypt ==> t.index[b].decrypt.Node?)
    requires offset <= BLK_SIZE
  {
    t.nodes[Target(t, b, decrypt)].data[offset..offset + Clip(offset, size)]
  }

  /** The two accesses of `flush_async` for one queued block. */
  ghost function FlushBlock(s: State, b: nat): (t: State)
    requires Shaped(s) && b < |s.index|
    ensures Shaped(t)
  {
    var d := GetNode(s, b, true);
    var e := GetNode(FlushIfUpdated(d, Target(d, b, true)), b, false);
    FlushIfUpdated(e, Target(e, b, false))
  }

  // ----- each operation against the array ---------------------------------------------------

  ghost function PlainOf(s: State): (p: seq<Block>)
    requires Shaped(s)
    ensures |p| == |s.index| && forall b: nat :: b < |p| ==> p[b] == Plain(s, b)
  {
    seq(|s.index|, b requires 0 <= b < |s.index| => Plain(s, b))
  }

  lemma SamePlainOf(s: State, t: State)
    requires Shaped(s) && Shaped(t) && SamePlain(s, t)
    ensures PlainOf(t) == PlainOf(s) && NothingInvented(s, t)
  {
    forall b: nat | b < |s.index|
      ensures Plain(t, b) == Plain(s, b) && Known(s, b, DevRead(t, b)) && Known(s, b, Ciphertext(t, b))
    {
      assert BlockKept(s, t, b);
    }
  }

  ghost predicate NothingInvented(s: State, t: State)
    requires Shaped(s) && Shaped(t) && |s.index| == |t.index|
  {
    forall b: nat :: b < |s.index| ==> Known(s, b, DevRead(t, b)) && Known(s, b, Ciphertext(t, b))
  }

  lemma WriteNodeKeeps(u: State, b: nat, offset: nat, data: seq<Byte>)
    requires Inv(u) && b < |u.index| && HasE(u, b) && HasD(u, b) && offset <= BLK_SIZE
    ensures var t := WriteNode(u, Target(u, b, true), offset, data);
            && Inv(t)
            && PlainOf(t) == PlainOf(u)[b := Patch(Plain(u, b), offset, data[..Clip(offset, |data|)])]
            && forall a: nat :: a < |u.index| ==> DevRead(t, a) == DevRead(u, a) && Ciphertext(t, a) == Ciphertext(u, a)
  {
    var n := Target(u, b, true);
    assert PairOk(u, b) && NodeOk(u, n);
    var t := WriteNode(u, n, offset, data);
    forall m: nat | m < |t.nodes| ensures NodeOk(t, m) { assert NodeOk(u, m); }
    forall a: nat | a < |t.index|
      ensures PairOk(t, a)
      ensures a != b ==> Plain(t, a) == Plain(u, a)
      ensures DevRead(t, a) == DevRead(u, a) && Ciphertext(t, a) == Ciphertext(u, a)
    {
      assert PairOk(u, a);
    }
  }

  lemma WriteRefines(s: State, b: nat, offset: nat, data: seq<Byte>)
    requires Inv(s) && b < |s.index| && offset <= BLK_SIZE
    ensures var t := Write(s, b, offset, data);
            && Inv(t) && t.c == s.c && |t.index| == |s.index|
            && PlainOf(t) == PlainOf(s)[b := Patch(Plain(s, b), offset, data[..Clip(offset, |data|)])]
            && NothingInvented(s, t)
  {
    var u := GetNode(s, b, true);
    AccessKeeps(s, b, true);
    SamePlainOf(s, u);
    WriteNodeKeeps(u, b, offset, data);
  }

  /** A decrypting read returns the array's bytes, the other read their encryption. */
  lemma ReadRefines(s: State, b: nat, offset: nat, size: nat, decrypt: bool)
    requires Inv(s) && b < |s.index| && offset <= BLK_SIZE
    ensures var t := GetNode(s, b, decrypt);
            Inv(t) && t.c == s.c && |t.index| == |s.index| && PlainOf(t) == PlainOf(s) && NothingInvented(s, t)
    ensures ReadReply(s, b, offset, size, decrypt) == Slice(s.c, ReadOp(b, offset, size, decrypt), Plain(s, b))
  {
    AccessKeeps(s, b, decrypt);
    SamePlainOf(s, GetNode(s, b, decrypt));
    assert BlockKept(s, GetNode(s, b, decrypt), b);
  }

  /** After the two accesses of `flush_async` the device holds the encryption of the
      block's logical content. */
  lemma FlushBlockPersists(s: State, b: nat)
    requires Inv(s) && b < |s.index|
    ensures var t := FlushBlock(s, b);
            && Inv(t) && t.c == s.c && |t.index| == |s.index| && PlainOf(t) == PlainOf(s) && NothingInvented(s, t)
            && DevRead(t, b) == EncBlock(s.c, b, Plain(s, b))
  {
    var d := GetNode(s, b, true);
    AccessKeeps(s, b, true);
    var d1 := FlushIfUpdated(d, Target(d, b, true));
    FlushKeeps(d, Target(d, b, true));
    Compose(s, d, d1);
    var e := GetNode(d1, b, false);
    AccessKeeps(d1, b, false);
    Compose(s, d1, e);
    var n := Target(e, b, false);
    var t := FlushIfUpdated(e, n);
    assert PairOk(e, b);
    FlushKeeps(e, n);
    Compose(s, e, t);
    SamePlainOf(s, t);
    assert BlockKept(s, e, b);
    assert NodeOk(e, n) && NodeOk(t, n);
  }

  // ----- runs -----------------------------------------------------------------------------------

  datatype Op =
    | WriteOp(b: nat, offset: nat, data: seq<Byte>)
    | ReadOp(b: nat, offset: nat, size: nat, decrypt: bool)
    | FlushOp(b: nat)

  datatype Reply = Count(n: nat) | Bytes(data: seq<Byte>) | Done

  predicate OpOk(op: Op, count: nat) {
    op.b < count && (op.FlushOp? || op.offset <= BLK_SIZE)
  }

  predicate OpsOk(ops: seq<Op>, count: nat) {
    forall i :: 0 <= i < |ops| ==> OpOk(ops[i], count)
  }

  ghost function Step(s: State, op: Op): (t: State)
    requires Shaped(s) && OpOk(op, |s.index|)
    ensures Shaped(t)
  {
    match op
    case WriteOp(b, offset, data) => Write(s, b, offset, data)
    case ReadOp(b, _, _, decrypt) => GetNode(s, b, decrypt)
    case FlushOp(b) => FlushBlock(s, b)
  }

  ghost function StepReply(s: State, op: Op): Reply
    requires Shaped(s) && OpOk(op, |s.index|)
  {
    match op
    case WriteOp(b, offset, data) => Count(Clip(offset, |data|))
    case ReadOp(b, offset, size, decrypt) => Bytes(ReadReply(s, b, offset, size, decrypt))
    case FlushOp(b) => Done
  }

  /** What a read of logical content `block` returns: plaintext or its encryption. */
  function Slice(c: Ecb, op: Op, block: Block): seq<Byte>
    requires op.ReadOp? && op.offset <= BLK_SIZE
  {
    var whole := if op.decrypt then block else EncBlock(c, op.b, block);
    whole[op.offset..op.offset + Clip(op.offset, op.size)]
  }

  lemma ReadReplyIs(s: State, op: Op, t: State)
    requires Shaped(s) && OpOk(op, |s.index|) && op.ReadOp? && t == GetNode(s, op.b, op.decrypt)
    ensures StepReply(s, op) == Bytes(TargetBytes(t, op.b, op.offset, op.size, op.decrypt))
  {
  }

  /** A read as its caller sees it. */
  lemma ReadFacts(s: State, t: State, b: nat, offset: nat, size: nat, decrypt: bool)
    requires Inv(s) && b < |s.index| && offset <= BLK_SIZE && t == GetNode(s, b, decrypt)
    ensures Inv(t) && t.c == s.c && |t.index| == |s.index| && PlainOf(t) == PlainOf(s)
    ensures TargetBytes(t, b, offset, size, decrypt) == Slice(s.c, ReadOp(b, offset, size, decrypt), PlainOf(s)[b])
  {
    ReadRefines(s, b, offset, size, decrypt);
  }

  /** The specification: a plain array of blocks. */
  function ArrayStep(p: seq<Block>, op: Op): (q: seq<Block>)
    requires OpOk(op, |p|)
    ensures |q| == |p|
  {
    match op
    case WriteOp(b, offset, data) => p[b := Patch(p[b], offset, data[..Clip(offset, |data|)])]
    case _ => p
  }

  function ArrayReply(c: Ecb, p: seq<Block>, op: Op): Reply
    requires OpOk(op, |p|)
  {
    match op
    case WriteOp(b, offset, data) => Count(Clip(offset, |data|))
    case ReadOp(b, offset, size, decrypt) =>
      Bytes(Slice(c, op, p[b]))
    case FlushOp(_) => Done
  }

  /** One step keeps the invariant, acts on the logical contents as on the array, replies
      what the array replies, and makes up no ciphertext. */
  ghost predicate Refines(s: State, op: Op)
    requires Shaped(s) && OpOk(op, |s.index|)
  {
    var t := Step(s, op);
    && Inv(t) && t.c == s.c && |t.index| == |s.index|
    && PlainOf(t) == ArrayStep(PlainOf(s), op)
    && StepReply(s, op) == ArrayReply(s.c, PlainOf(s), op)
    && NothingInvented(s, t)
  }

  lemma WriteOpRefines(s: State, op: Op)
    requires Inv(s) && OpOk(op, |s.index|) && op.WriteOp?
    ensures Refines(s, op)
  {
    WriteRefines(s, op.b, op.offset, op.data);
  }

  lemma ReadOpRefines(s: State, op: Op)
    requires Inv(s) && OpOk(op, |s.index|) && op.ReadOp?
    ensures Refines(s, op)
  {
    ReadRefines(s, op.b, op.offset, op.size, op.decrypt);
    ReadOpReplies(s, op, PlainOf(s));
  }

  lemma ReadOpReplies(s: State, op: Op, p: seq<Block>)
    requires Inv(s) && OpOk(op, |s.index|) && op.ReadOp? && |p| == |s.index|
    requires p[op.b] == Plain(s, op.b)
    requires ReadReply(s, op.b, op.offset, op.size, op.decrypt) == Slice(s.c, op, p[op.b])
    ensures StepReply(s, op) == ArrayReply(s.c, p, op)
  {
  }

  lemma FlushOpRefines(s: State, op: Op)
    requires Inv(s) && OpOk(op, |s.index|) && op.FlushOp?
    ensures Refines(s, op)
  {
    FlushBlockPersists(s, op.b);
  }

  lemma StepRefines(s: State, op: Op)
    requires Inv(s) && OpOk(op, |s.index|)
    ensures Refines(s, op)
  {
    match op {
      case WriteOp(_, _, _) => WriteOpRefines(s, op);
      case ReadOp(_, _, _, _) => ReadOpRefines(s, op);
      case FlushOp(_) => FlushOpRefines(s, op);
    }
  }

  ghost function ArrayRun(p: seq<Block>, ops: seq<Op>): (q: seq<Block>)
    requires OpsOk(ops, |p|)
    ensures |q| == |p|
  {
    if ops == [] then p
    else ArrayStep(ArrayRun(p, ops[..|ops| - 1]), ops[|ops| - 1])
  }

  ghost function ArrayReplies(c: Ecb, p: seq<Block>, ops: seq<Op>): seq<Reply>
    requires OpsOk(ops, |p|)
  {
    if ops == [] then []
    else var prefix := ops[..|ops| - 1];
         ArrayReplies(c, p, prefix) + [ArrayReply(c, ArrayRun(p, prefix), ops[|ops| - 1])]
  }

  /** The state after a run. */
  ghost function Run(s: State, ops: seq<Op>): (t: State)
    requires Inv(s) && OpsOk(ops, |s.index|)
    ensures Inv(t) && |t.index| == |s.index| && t.c == s.c
  {
    if ops == [] then s
    else
      var u := Run(s, ops[..|ops| - 1]);
      StepRefines(u, ops[|ops| - 1]);
      Step(u, ops[|ops| - 1])
  }

  ghost function Replies(s: State, ops: seq<Op>): seq<Reply>
    requires Inv(s) && OpsOk(ops, |s.index|)
  {
    if ops == [] then []
    else var prefix := ops[..|ops| - 1];
         Replies(s, prefix) + [StepReply(Run(s, prefix), ops[|ops| - 1])]
  }

  lemma RunStep(s: State, ops: seq<Op>, i: nat)
    requires Inv(s) && OpsOk(ops, |s.index|) && i < |ops|
    ensures Run(s, ops[..i + 1]) == Step(Run(s, ops[..i]), ops[i])
    ensures Replies(s, ops[..i + 1]) == Replies(s, ops[..i]) + [StepReply(Run(s, ops[..i]), ops[i])]
  {
    var longer := ops[..i + 1];
    assert longer[..|longer| - 1] == ops[..i];
  }

  /** Cache refinement: in every run, whatever is evicted or reloaded, each reply is the
      plain array's. */
  lemma {:induction false} RunRefinesArray(s: State, ops: seq<Op>)
    requires Inv(s) && OpsOk(ops, |s.index|)
    ensures PlainOf(Run(s, ops)) == ArrayRun(PlainOf(s), ops)
    ensures Replies(s, ops) == ArrayReplies(s.c, PlainOf(s), ops)
  {
    if ops != [] {
      RunRefinesArray(s, ops[..|ops| - 1]);
      StepRefines(Run(s, ops[..|ops| - 1]), ops[|ops| - 1]);
    }
  }

  // ----- the initial state -------------------------------------------------------------------------

  function Countdown(n: nat): (r: seq<nat>)
    ensures |r| == n && forall i :: 0 <= i < n ==> r[i] == n - 1 - i
  {
    if n == 0 then [] else [n - 1] + Countdown(n - 1)
  }

  /** After `init`: node i was moved to the front i-th, all nodes free, no index entries. */
  ghost function Initial(c: Ecb, count: nat, dev: seq<Stored>): State {
    State(c, Countdown(count), seq(count, _ => CacheNode(-1, ZeroBlock(), Uninited, Null)),
          seq(|dev|, _ => Pair(Null, Null)), dev)
  }

  lemma InitialInv(c: Ecb, count: nat, dev: seq<Stored>)
    requires 2 <= count
    ensures Inv(Initial(c, count, dev))
    ensures forall b: nat :: b < |dev| ==>
              var s := Initial(c, count, dev);
              Plain(s, b) == DecBlock(c, b, DevRead(s, b)) && Ciphertext(s, b) == DevRead(s, b)
  {
    var s := Initial(c, count, dev);
    forall n: nat | n < count ensures n in s.order { assert s.order[count - 1 - n] == n; }
  }

  /** The logical contents of a device that was never written. */
  ghost function BlankArray(c: Ecb, count: nat): seq<Block> {
    seq(count, b requires 0 <= b => DecBlock(c, b, ZeroBlock()))
  }

  ghost predicate Blank(s: State) {
    && (forall n :: 0 <= n < |s.nodes| ==> s.nodes[n].blk == -1)
    && (forall b :: 0 <= b < |s.dev| ==> s.dev[b] == Unwritten)
  }

  lemma BlankRun(s: State, ops: seq<Op>)
    requires Inv(s) && OpsOk(ops, |s.index|) && Blank(s)
    ensures Replies(s, ops) == ArrayReplies(s.c, BlankArray(s.c, |s.index|), ops)
  {
    assert PlainOf(s) == BlankArray(s.c, |s.index|);
    RunRefinesArray(s, ops);
  }

  // ----- device history ---------------------------------------------------------------------------

  /** `x` encrypts what block `b` logically held after some prefix of the run. */
  ghost predicate Recalled(s: State, ops: seq<Op>, b: nat, x: Block)
    requires Inv(s) && OpsOk(ops, |s.index|) && b < |s.index|
  {
    exists k :: 0 <= k <= |ops| && EncryptedAfter(s, ops[..k], b, x)
  }

  ghost predicate EncryptedAfter(s: State, ops: seq<Op>, b: nat, x: Block)
    requires Inv(s) && b < |s.index|
  {
    OpsOk(ops, |s.index|) && x == EncBlock(s.c, b, Plain(Run(s, ops), b))
  }

  /** From an empty cache, every device block always holds the encryption of a content that
      same block logically had at some earlier step (an unwritten block reads as zeros, the
      encryption of its initial content). */
  lemma {:induction false} DeviceHistory(s: State, ops: seq<Op>, b: nat)
    requires Inv(s) && OpsOk(ops, |s.index|) && b < |s.index|
    requires forall n :: 0 <= n < |s.nodes| ==> s.nodes[n].blk == -1
    ensures Recalled(s, ops, b, DevRead(Run(s, ops), b))
    ensures Recalled(s, ops, b, Ciphertext(Run(s, ops), b))
  {
    if ops == [] {
      Inverse(s.c, b, DevRead(s, b));
      assert EncryptedAfter(s, ops[..0], b, DevRead(s, b));
    } else {
      var prefix := ops[..|ops| - 1];
      var u := Run(s, prefix);
      DeviceHistory(s, prefix, b);
      StepRefines(u, ops[|ops| - 1]);
      NowRecalled(s, ops, b);
      StillRecalled(s, ops, b, DevRead(u, b));
      StillRecalled(s, ops, b, Ciphertext(u, b));
    }
  }

  lemma NowRecalled(s: State, ops: seq<Op>, b: nat)
    requires Inv(s) && OpsOk(ops, |s.index|) && b < |s.index| && ops != []
    ensures Recalled(s, ops, b, EncBlock(s.c, b, Plain(Run(s, ops[..|ops| - 1]), b)))
  {
    assert EncryptedAfter(s, ops[..|ops| - 1], b, EncBlock(s.c, b, Plain(Run(s, ops[..|ops| - 1]), b)));
  }

  lemma StillRecalled(s: State, ops: seq<Op>, b: nat, x: Block)
    requires Inv(s) && OpsOk(ops, |s.index|) && b < |s.index| && ops != []
    requires Recalled(s, ops[..|ops| - 1], b, x)
    ensures Recalled(s, ops, b, x)
  {
    var prefix := ops[..|ops| - 1];
    var k :| 0 <= k <= |prefix| && EncryptedAfter(s, prefix[..k], b, x);
    RecalledAt(s, ops, prefix[..k], k, b, x);
  }

  lemma RecalledAt(s: State, ops: seq<Op>, before: seq<Op>, k: nat, b: nat, x: Block)
    requires Inv(s) && OpsOk(ops, |s.index|) && b < |s.index| && k < |ops| && before == ops[..|ops| - 1][..k]
    requires EncryptedAfter(s, before, b, x)
    ensures Recalled(s, ops, b, x)
  {
    assert before == ops[..k];
  }
}
