/** The names of lock nodes, and `Lock` and `Unlock` as loops that other clients interfere with. */
module ZkClient {
  import opened Arithmetic
  import opened ZkLock
  import opened ZkTheorems
  import opened Wrappers

  // ---------------------------------------------------------------- names

  /** The lowest `w` decimal digits of `n`. */
  function Padded(n: nat, w: nat): (r: string)
    ensures |r| == w && forall i :: 0 <= i < w ==> '0' <= r[i] <= '9'
  {
    if w == 0 then "" else Padded(n / 10, w - 1) + [(n % 10) as char + '0']
  }

  /** atoi on a string of digits. */
  function Atoi(s: string): nat
    requires forall i :: 0 <= i < |s| ==> '0' <= s[i] <= '9'
  {
    if s == "" then 0 else 10 * Atoi(s[..|s| - 1]) + (s[|s| - 1] - '0') as nat
  }

  function Letter(kind: Kind): char {
    if kind == Read then 'r' else 'w'
  }

  /** The name ZooKeeper gives a sequential child: the prefix and ten digits. */
  function Name(c: Child): string {
    [Letter(c.kind)] + Padded(c.number, 10)
  }

  function NodePath(path: string, c: Child): string {
    path + "/" + Name(c)
  }

  lemma {:induction false} AtoiPadded(n: nat, w: nat)
    ensures Atoi(Padded(n, w)) == n % Pow10(w)
  {
    if w > 0 {
      AtoiPadded(n / 10, w - 1);
      var d := (n % 10) as char + '0';
      assert Padded(n, w)[..w - 1] == Padded(n / 10, w - 1);
      DigitSplit(n, Pow10(w - 1));
    }
  }

  lemma DigitSplit(n: nat, p: nat)
    requires p > 0
    ensures 10 * (n / 10 % p) + n % 10 == n % (10 * p)
  {
    var q, r := n / 10 / p, n / 10 % p;
    assert n == 10 * (q * p + r) + n % 10;
    assert n == q * (10 * p) + (10 * r + n % 10);
    Quotient(n, 10 * p, q, 10 * r + n % 10);
  }

  lemma {:induction false} PaddedEnd(n: nat, w: nat, k: nat)
    requires k <= w
    ensures Padded(n, w)[w - k..] == Padded(n, k)
  {
    if k > 0 {
      PaddedEnd(n / 10, w - 1, k - 1);
    }
  }

  /** The last eight digits of a client's own path are its number modulo 10^8. */
  lemma OwnId(path: string, c: Child)
    ensures var s := NodePath(path, c); |s| >= 8 && s[|s| - 8..] == Padded(c.number, 8)
    ensures Atoi(Padded(c.number, 8)) == c.number % LIMIT
  {
    PaddedEnd(c.number, 10, 8);
    var s := NodePath(path, c);
    assert s[|s| - 10..] == Padded(c.number, 10);
    assert s[|s| - 8..] == s[|s| - 10..][2..];
    AtoiPadded(c.number, 8);
    PowersOfTen();
  }

  /** The last ten digits of a child's name are its number. */
  lemma ChildId(c: Child)
    requires c.number <= MAX_NUMBER
    ensures Name(c)[|Name(c)| - 10..] == Padded(c.number, 10)
    ensures Atoi(Padded(c.number, 10)) == c.number
  {
    hide Padded, Atoi, Pow10;
    AtoiPadded(c.number, 10);
    PowersOfTen();
  }

  /** What `Unlock` strips off a node's path leaves exactly the path that was given to `Lock`. */
  lemma UnlockPath(path: string, c: Child)
    ensures var s := NodePath(path, c); |s| >= 12 && s[..|s| - 12] == path
  {
  }

  lemma OneDigit(n: nat, w: nat)
    requires w > 0
    ensures Padded(n, w) == Padded(n / 10, w - 1) + [(n % 10) as char + '0']
  {}

  lemma {:induction false} LeadingZeros(w: nat)
    requires w <= 9
    ensures Padded(0, w) == "000000000"[..w]
  {
    if w > 0 {
      LeadingZeros(w - 1);
    }
  }

  lemma Seven()
    ensures Padded(7, 10) == "0000000007"
  {
    LeadingZeros(9);
    hide Padded;
    OneDigit(7, 10);
  }

  lemma FortyTwo()
    ensures Padded(42, 10) == "0000000042"
  {
    LeadingZeros(8);
    hide Padded;
    OneDigit(4, 9);
    OneDigit(42, 10);
  }

  /** The paths as they are written. */
  lemma PathsWritten()
    ensures NodePath("/lock", Child(Read, 42)) == "/lock/r0000000042"
    ensures NodePath("/lock", Child(Write, 7)) == "/lock/w0000000007"
  {
    hide Padded;
    Seven();
    FortyTwo();
  }

  // ---------------------------------------------------------------- the scan

  lemma {:induction false} FirstBlockerAt(own: Child, order: seq<Child>, i: nat)
    requires i < |order| && Blocks(own, order[i]) && forall j :: 0 <= j < i ==> !Blocks(own, order[j])
    ensures FirstBlocker(own, order) == Some(order[i])
  {
    if i > 0 {
      FirstBlockerAt(own, order[1..], i - 1);
    }
  }

  /** A writer waits for everyone with a smaller number, a reader for writers; its own number is cut to eight digits. */
  predicate Waits(own: Child, c: Child) {
    (own.kind == Write || c.kind == Write) && c.number < own.number % 100_000_000
  }

  /** The loop over the listed names: the first one a client with path `reqId` has to wait for. */
  method Scan(names: seq<string>, reqId: string, rw: Kind,
              ghost path: string, ghost own: Child, ghost order: seq<Child>) returns (r: Option<nat>)
    requires reqId == NodePath(path, own) && rw == own.kind && |names| == |order|
    requires forall i :: 0 <= i < |order| ==> order[i].number <= MAX_NUMBER && names[i] == Name(order[i])
    ensures r.Some? ==> r.value < |order|
    ensures Verdict(own, order) == if r.None? then None else Some(order[r.value])
    ensures r.None? && |order| > 1 ==> forall i :: 0 <= i < |order| ==> !Waits(own, order[i])
    ensures r.Some? ==> Waits(own, order[r.value]) && forall i :: 0 <= i < r.value ==> !Waits(own, order[i])
  {
    hide Padded, Atoi, NodePath;
    OwnId(path, own);
    var reqIdInt := Atoi(reqId[|reqId| - 8..]);
    if |names| > 1 {
      for i := 0 to |names|
        invariant forall j :: 0 <= j < i ==> !Blocks(own, order[j])
      {
        ChildId(order[i]);
        var a := names[i];
        if rw == Write || a[0] != 'r' {
          var childIdInt := Atoi(a[|a| - 10..]);
          if reqIdInt > childIdInt {
            FirstBlockerAt(own, order, i);
            return Some(i);
          }
        }
      }
    }
    return None;
  }

  // ---------------------------------------------------------------- Lock and Unlock

  datatype Outcome = Locked(node: Child) | Threw | Pending

  /** The znodes of one path with all the clients that use them. */
  class ZooKeeper {
    var z: Zk
    ghost var n: nat
    ghost var trace: seq<Step>

    ghost predicate Valid()
      reads this
    {
      Run(n, trace) && z == Final(n, trace)
    }

    constructor (clients: nat)
      ensures Valid() && z == Init(clients)
    {
      z := Init(clients);
      n, trace := clients, [];
    }

    /** One call to ZooKeeper. */
    method Take(step: Step)
      requires Valid() && Enabled(z, step)
      modifies this
      ensures Valid() && n == old(n) && trace == old(trace) + [step] && z == Next(old(z), step)
    {
      assert Front(trace + [step]) == trace;
      z := Next(z, step);
      trace := trace + [step];
    }

    /** What other clients do before the next call of `me`; moves they cannot make are skipped. */
    method Others(me: nat, moves: seq<Step>)
      requires Valid() && me < |z.clients|
      modifies this
      ensures Valid() && n == old(n) && old(trace) <= trace
      ensures me < |z.clients| && z.clients[me] == old(z).clients[me]
      ensures moves == [] ==> z == old(z)
    {
      for i := 0 to |moves|
        invariant Valid() && n == old(n) && old(trace) <= trace
        invariant me < |z.clients| && z.clients[me] == old(z).clients[me]
        invariant moves == [] ==> z == old(z)
      {
        if moves[i].client != me && Enabled(z, moves[i]) {
          Take(moves[i]);
        }
      }
    }

    lemma Numbers()
      requires Valid()
      ensures forall m :: m in z.children ==> m <= MAX_NUMBER
    {
      RunInv(n, trace);
    }

    /** GetChildren: the names in some order. */
    method GetChildren() returns (names: seq<string>, order: seq<Child>)
      requires Valid()
      ensures Lists(order, z.children) && |names| == |order|
      ensures forall i :: 0 <= i < |order| ==> order[i].number <= MAX_NUMBER && names[i] == Name(order[i])
    {
      hide Run, Final, Name;
      Numbers();
      names, order := [], [];
      var rest := z.children.Keys;
      while rest != {}
        invariant rest <= z.children.Keys && |names| == |order| && |order| + |rest| == |z.children.Keys|
        invariant forall i :: 0 <= i < |order| ==>
          order[i].number in z.children && z.children[order[i].number].kind == order[i].kind
        invariant forall i :: 0 <= i < |order| ==> names[i] == Name(order[i])
        invariant forall m :: m in z.children ==> m in rest || Child(z.children[m].kind, m) in order
        decreases |rest|
      {
        var m :| m in rest;
        var c := Child(z.children[m].kind, m);
        rest := rest - {m};
        names, order := names + [Name(c)], order + [c];
      }
    }

    /** A writer has the lock to itself, and a reader shares it with readers only, or a number has nine digits. */
    ghost predicate Alone(me: nat, node: Child)
      reads this
    {
      forall k :: 0 <= k < |z.clients| && k != me && Granted(z.clients[k])
                  && (node.kind == Write || z.clients[k].node.kind == Write) ==>
        node.number >= 100_000_000 || z.clients[k].node.number >= 100_000_000
    }

    lemma HolderAlone(me: nat)
      requires Valid() && me < |z.clients| && z.clients[me].Holding?
      ensures Alone(me, z.clients[me].node)
    {
      forall k | 0 <= k < |z.clients| && k != me && Granted(z.clients[k])
                 && (z.clients[me].node.kind == Write || z.clients[k].node.kind == Write)
        ensures z.clients[me].node.number >= LIMIT || z.clients[k].node.number >= LIMIT
      {
        if z.clients[me].node.number <= z.clients[k].node.number {
          OnlyOverflow(n, trace, me, k);
        } else {
          OnlyOverflow(n, trace, k, me);
        }
      }
    }

    /** Creates the parent unless it is there. */
    method OpenParent(me: nat, rw: Kind)
      requires Valid() && me < |z.clients| && z.clients[me].Idle?
      modifies this
      ensures Valid() && n == old(n) && old(trace) <= trace
      ensures me < |z.clients| && z.clients[me] == Opening(rw)
    {
      Take(Open(me, rw));
    }

    /** Creates the sequential child; fails if the parent has gone. */
    method CreateChild(me: nat) returns (ok: bool)
      requires Valid() && me < |z.clients| && z.clients[me].Opening?
      requires z.parent ==> z.counter < MAX_NUMBER
      modifies this
      ensures Valid() && n == old(n) && old(trace) <= trace && me < |z.clients|
      ensures ok <==> old(z).parent
      ensures z.clients[me] == if ok then Queued(Child(old(z).clients[me].kind, old(z).counter)) else Idle
    {
      ok := z.parent;
      Take(Enqueue(me));
    }

    /** Lists and scans the children once. */
    method Attempt(me: nat, path: string, node: Child, reqId: string) returns (b: Option<Child>)
      requires Valid() && me < |z.clients| && z.clients[me] == Queued(node) && reqId == NodePath(path, node)
      modifies this
      ensures Valid() && n == old(n) && old(trace) <= trace && me < |z.clients|
      ensures z.clients[me] == if b.None? then Holding(node) else Waiting(node, b.value)
    {
      hide Run, Final, Name;
      var names, order := GetChildren();
      var i := Scan(names, reqId, node.kind, path, node, order);
      b := if i.None? then None else Some(order[i.value]);
      Take(Snapshot(me, order));
    }

    /** Asks once whether the blocker is still there. */
    method Ask(me: nat, node: Child, blocker: Child) returns (childExists: bool)
      requires Valid() && me < |z.clients| && z.clients[me] == Waiting(node, blocker)
      modifies this
      ensures Valid() && n == old(n) && old(trace) <= trace && me < |z.clients|
      ensures childExists <==> Exists(old(z), blocker)
      ensures z.clients[me] == if childExists then Waiting(node, blocker) else Queued(node)
    {
      childExists := Exists(z, blocker);
      Take(Poll(me));
    }

    /** Lock: the others move as scheduled; `Pending` means the schedule ended before the lock was granted. */
    method Lock(me: nat, path: string, rw: Kind, schedule: seq<seq<Step>>) returns (r: Outcome, reqId: string)
      requires Valid() && me < |z.clients| && z.clients[me].Idle?
      modifies this
      ensures Valid() && n == old(n) && old(trace) <= trace && me < |z.clients|
      ensures match r
        case Locked(node) =>
          && z.clients[me] == Holding(node) && node.kind == rw && reqId == NodePath(path, node)
          && Alone(me, node)
        case Threw => z.clients[me].Idle?
        case Pending => !Granted(z.clients[me])
    {
      hide Run, Final, Alone, NodePath;
      r, reqId := Pending, "";
      OpenParent(me, rw);
      if schedule == [] {
        return;
      }
      Others(me, schedule[0]);
      if z.parent && z.counter >= MAX_NUMBER {
        return;
      }
      var node := Child(rw, z.counter);
      var created := CreateChild(me);
      if !created {
        return Threw, "";
      }
      reqId := NodePath(path, node);
      var t := 1;
      while t < |schedule|
        invariant 0 < t <= |schedule|
        invariant Valid() && n == old(n) && old(trace) <= trace
        invariant me < |z.clients| && z.clients[me] == Queued(node)
      {
        Others(me, schedule[t]);
        t := t + 1;
        var b := Attempt(me, path, node, reqId);
        if b.None? {
          HolderAlone(me);
          return Locked(node), reqId;
        }
        var childExists := true;
        while childExists && t < |schedule|
          invariant 0 < t <= |schedule|
          invariant Valid() && n == old(n) && old(trace) <= trace && me < |z.clients|
          invariant z.clients[me] == if childExists then Waiting(node, b.value) else Queued(node)
          decreases |schedule| - t
        {
          Others(me, schedule[t]);
          t := t + 1;
          childExists := Ask(me, node, b.value);
        }
        if childExists {
          return;
        }
      }
    }

    /** DeleteIfExists on the parent: fails if there are children again. */
    method DeleteParent(me: nat, before: seq<Step>, between: seq<Step>) returns (threw: bool)
      requires Valid() && me < |z.clients| && z.clients[me].Clearing?
      modifies this
      ensures Valid() && n == old(n) && old(trace) <= trace
      ensures me < |z.clients| && z.clients[me].Idle?
      ensures threw ==> z.parent && z.children != map[]
      ensures before == between == [] && old(z).children == map[] ==> !threw && !z.parent && z.children == map[]
    {
      hide Run, Final;
      threw := false;
      Others(me, before);
      Take(Look(me));
      if z.clients[me].Sweeping? {
        Others(me, between);
        threw := z.parent && z.children != map[];
        Take(Sweep(me));
      }
    }

    lemma OwnNode(me: nat)
      requires Valid() && me < |z.clients| && z.clients[me].Holding?
      ensures z.parent && z.clients[me].node.number in z.children
      ensures |z.children| <= 1 ==> z.children - {z.clients[me].node.number} == map[]
    {
      RunInv(n, trace);
      var number, keys := z.clients[me].node.number, z.children.Keys;
      if |z.children| <= 1 {
        assert |keys - {number}| == |keys| - 1;
        assert keys - {number} == {};
      }
    }

    lemma NothingLeft(me: nat)
      requires Valid() && me < |z.clients| && z.clients[me].Idle?
      ensures forall i :: i in z.children ==> z.children[i].owner != me
    {
      RunInv(n, trace);
    }

    /** Unlock: `others[i]` is what the other clients do before call `i + 1`. */
    method Unlock(me: nat, reqId: string, others: seq<seq<Step>>, ghost path: string) returns (key: string, threw: bool)
      requires Valid() && me < |z.clients| && z.clients[me].Holding? && |others| == 4
      requires reqId == NodePath(path, z.clients[me].node)
      modifies this
      ensures Valid() && n == old(n) && old(trace) <= trace
      ensures key == path && me < |z.clients| && z.clients[me].Idle?
      ensures forall i :: i in z.children ==> z.children[i].owner != me
      ensures threw ==> z.parent && z.children != map[]
      ensures (forall i :: 0 <= i < 4 ==> others[i] == []) ==>
        && !threw && (z.parent <==> |old(z).children| > 1)
        && z.children == old(z).children - {old(z).clients[me].node.number}
    {
      OwnNode(me);
      hide Run, Final, NodePath;
      UnlockPath(path, z.clients[me].node);
      key := reqId[..|reqId| - 12];
      threw := false;
      Others(me, others[0]);
      Take(Release(me));
      Others(me, others[1]);
      Take(DeleteOwn(me));
      if z.clients[me].Clearing? {
        threw := DeleteParent(me, others[2], others[3]);
      }
      NothingLeft(me);
    }
  }
}
