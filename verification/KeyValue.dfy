/** Requests, replies and the key-value datalet that executes them. */
module KeyValue {
  type Key = string
  type Val = string
  type Kv = map<Key, Val>

  datatype Cmd = Set(key: Key, val: Val) | Get(key: Key)

  /** A request as the proxy sees it: who sent it, and which of that client's requests it is. */
  datatype Op = Op(client: nat, seqno: nat, cmd: Cmd)

  datatype Reply = Stored | Found(val: Val) | Missing

  /** One executed request together with the reply the datalet produced for it. */
  datatype Entry = Entry(op: Op, reply: Reply)

  function Store(kv: Kv, cmd: Cmd): Kv {
    match cmd
    case Set(k, v) => kv[k := v]
    case Get(_) => kv
  }

  function Answer(kv: Kv, cmd: Cmd): Reply {
    match cmd
    case Set(_, _) => Stored
    case Get(k) => if k in kv then Found(kv[k]) else Missing
  }

  /** The map a datalet holds after executing `ops` in order, starting empty. */
  function Replay(ops: seq<Op>): Kv {
    if ops == [] then map[]
    else Store(Replay(ops[..|ops| - 1]), ops[|ops| - 1].cmd)
  }

  function Ops(log: seq<Entry>): (r: seq<Op>)
    ensures |r| == |log|
  {
    seq(|log|, i requires 0 <= i < |log| => log[i].op)
  }

  /** The writes of client `c` in `ops`, in order. */
  function Writes(ops: seq<Op>, c: nat): seq<Op> {
    if ops == [] then []
    else
      var last := ops[|ops| - 1];
      Writes(ops[..|ops| - 1], c) + if last.client == c && last.cmd.Set? then [last] else []
  }

  /** All requests of client `c` in `ops`, in order. */
  function From(ops: seq<Op>, c: nat): seq<Op> {
    if ops == [] then []
    else
      var last := ops[|ops| - 1];
      From(ops[..|ops| - 1], c) + if last.client == c then [last] else []
  }

  /** Every write to a key goes through the one client `owner` names for that key. */
  ghost predicate SingleWriter(ops: seq<Op>, owner: Key -> nat) {
    forall i :: 0 <= i < |ops| && ops[i].cmd.Set? ==> ops[i].client == owner(ops[i].cmd.key)
  }

  lemma ReplayStep(ops: seq<Op>, op: Op)
    ensures Replay(ops + [op]) == Store(Replay(ops), op.cmd)
  {
    assert (ops + [op])[..|ops|] == ops;
  }

  /** The last write of `k` in `ops` stores `v`. */
  ghost predicate LastSet(ops: seq<Op>, k: Key, v: Val) {
    exists i :: 0 <= i < |ops| && ops[i].cmd == Set(k, v) &&
      forall m :: i < m < |ops| ==> !(ops[m].cmd.Set? && ops[m].cmd.key == k)
  }

  ghost predicate NeverSet(ops: seq<Op>, k: Key) {
    forall i :: 0 <= i < |ops| ==> !(ops[i].cmd.Set? && ops[i].cmd.key == k)
  }

  lemma LastSetPush(ops: seq<Op>, op: Op, k: Key, v: Val)
    ensures LastSet(ops + [op], k, v) <==>
      if op.cmd.Set? && op.cmd.key == k then op.cmd.val == v else LastSet(ops, k, v)
    ensures NeverSet(ops + [op], k) <==> NeverSet(ops, k) && !(op.cmd.Set? && op.cmd.key == k)
  {
    var more := ops + [op];
    assert more[|ops|] == op && forall i :: 0 <= i < |ops| ==> more[i] == ops[i];
    if op.cmd.Set? && op.cmd.key == k {
      if op.cmd.val == v {
        assert more[|ops|].cmd == Set(k, v);
      }
    } else {
      if LastSet(ops, k, v) {
        var i :| 0 <= i < |ops| && ops[i].cmd == Set(k, v) &&
          forall m :: i < m < |ops| ==> !(ops[m].cmd.Set? && ops[m].cmd.key == k);
        assert more[i].cmd == Set(k, v);
      }
      if LastSet(more, k, v) {
        var i :| 0 <= i < |more| && more[i].cmd == Set(k, v) &&
          forall m :: i < m < |more| ==> !(more[m].cmd.Set? && more[m].cmd.key == k);
        assert ops[i].cmd == Set(k, v);
      }
    }
  }

  /** A key holds the value of its last write, and nothing if there is none. */
  lemma {:induction false} ReplayLast(ops: seq<Op>, k: Key, v: Val)
    ensures k in Replay(ops) && Replay(ops)[k] == v <==> LastSet(ops, k, v)
    ensures k !in Replay(ops) <==> NeverSet(ops, k)
  {
    if ops != [] {
      var init, last := ops[..|ops| - 1], ops[|ops| - 1];
      assert ops == init + [last];
      ReplayLast(init, k, v);
      LastSetPush(init, last, k, v);
      hide LastSet, NeverSet;
    }
  }

  lemma WritesStep(ops: seq<Op>, op: Op, c: nat)
    ensures Writes(ops + [op], c)
         == Writes(ops, c) + if op.client == c && op.cmd.Set? then [op] else []
  {
    assert (ops + [op])[..|ops|] == ops;
  }

  lemma FromStep(ops: seq<Op>, op: Op, c: nat)
    ensures From(ops + [op], c) == From(ops, c) + if op.client == c then [op] else []
  {
    assert (ops + [op])[..|ops|] == ops;
  }

  lemma OpsStep(log: seq<Entry>, e: Entry)
    ensures Ops(log + [e]) == Ops(log) + [e.op]
  {}

  /** The value stored under `k` depends only on the writes of the client that owns `k`. */
  lemma {:induction false} ReplayOfOwner(ops: seq<Op>, owner: Key -> nat, k: Key)
    requires SingleWriter(ops, owner)
    ensures k in Replay(ops) <==> k in Replay(Writes(ops, owner(k)))
    ensures k in Replay(ops) ==> Replay(ops)[k] == Replay(Writes(ops, owner(k)))[k]
  {
    if ops != [] {
      var init, last := ops[..|ops| - 1], ops[|ops| - 1];
      var c := owner(k);
      ReplayOfOwner(init, owner, k);
      if last.client == c && last.cmd.Set? {
        assert Writes(ops, c) == Writes(init, c) + [last];
        ReplayStep(Writes(init, c), last);
      } else {
        assert Writes(ops, c) == Writes(init, c);
      }
    }
  }

  /**
   * Two interleavings of the same per-client write sequences produce the same map,
   * as long as no key has two writers.
   */
  lemma SameWritesSameMap(a: seq<Op>, b: seq<Op>, owner: Key -> nat)
    requires SingleWriter(a, owner) && SingleWriter(b, owner)
    requires forall c :: Writes(a, c) == Writes(b, c)
    ensures Replay(a) == Replay(b)
  {
    forall k: Key
      ensures k in Replay(a) <==> k in Replay(b)
      ensures k in Replay(a) ==> Replay(a)[k] == Replay(b)[k]
    {
      ReplayOfOwner(a, owner, k);
      ReplayOfOwner(b, owner, k);
    }
  }

  lemma {:induction false} InFrom(ops: seq<Op>, c: nat, op: Op)
    ensures op in From(ops, c) <==> op in ops && op.client == c
  {
    if ops != [] {
      InFrom(ops[..|ops| - 1], c, op);
      assert ops == ops[..|ops| - 1] + [ops[|ops| - 1]];
    }
  }

  lemma {:induction false} InWrites(ops: seq<Op>, c: nat, op: Op)
    ensures op in Writes(ops, c) <==> op in ops && op.client == c && op.cmd.Set?
  {
    if ops != [] {
      InWrites(ops[..|ops| - 1], c, op);
      assert ops == ops[..|ops| - 1] + [ops[|ops| - 1]];
    }
  }
}
