/** What holds of the lock in every state of every run. */
module ZkTheorems {
  import opened ZkLock
  import opened Wrappers

  // ---------------------------------------------------------------- mutual exclusion

  /** Two clients hold the lock together only if both are readers. */
  ghost predicate Exclusive(z: Zk) {
    forall j, k :: 0 <= j < k < |z.clients| && Granted(z.clients[j]) && Granted(z.clients[k]) ==>
      z.clients[j].node.kind == Read && z.clients[k].node.kind == Read
  }

  lemma Rivals(z: Zk, j: nat, k: nat)
    requires Inv(z) && j < |z.clients| && k < |z.clients| && j != k
    requires Granted(z.clients[j]) && Granted(z.clients[k])
    requires z.clients[j].node.kind == Write || z.clients[k].node.kind == Write
    requires z.clients[j].node.number <= z.clients[k].node.number
    ensures z.clients[k].node.number >= LIMIT
  {
    assert PhaseInv(z, k);
    assert z.children[z.clients[j].node.number].owner == j;
  }

  /** A writer holds the lock together with anyone else only if the younger one's number needs a ninth digit. */
  lemma OnlyOverflow(n: nat, steps: seq<Step>, j: nat, k: nat)
    requires Run(n, steps)
    requires var z := Final(n, steps);
      && j < |z.clients| && k < |z.clients| && j != k && Granted(z.clients[j]) && Granted(z.clients[k])
      && (z.clients[j].node.kind == Write || z.clients[k].node.kind == Write)
      && z.clients[j].node.number <= z.clients[k].node.number
    ensures Final(n, steps).clients[k].node.number >= 100_000_000
  {
    hide Run, Final, Inv;
    RunInv(n, steps);
    Rivals(Final(n, steps), j, k);
  }

  /** No number handed out during the run exceeds or reaches `bound`. */
  ghost predicate Within(n: nat, steps: seq<Step>, bound: nat)
    requires Run(n, steps)
  {
    Final(n, steps).counter <= bound && (steps == [] || Within(n, Front(steps), bound))
  }

  ghost predicate SafeUpTo(bound: nat) {
    forall n: nat, steps: seq<Step> :: Run(n, steps) && Within(n, steps, bound) ==> Exclusive(Final(n, steps))
  }

  /** With numbers below a bound the lock is safe, in all runs of any number of clients, iff the bound is 10^8. */
  lemma SafeIff(bound: nat)
    ensures SafeUpTo(bound) <==> bound <= 100_000_000
  {
    if bound <= LIMIT {
      forall n: nat, steps: seq<Step> | Run(n, steps) && Within(n, steps, bound)
        ensures Exclusive(Final(n, steps))
      {
        SafeRun(n, steps, bound);
      }
    } else {
      var steps := Overrun();
      assert Within(LIMIT + 1, steps, bound) by { WithinMore(LIMIT + 1, steps, LIMIT + 1, bound); }
    }
  }

  lemma SafeRun(n: nat, steps: seq<Step>, bound: nat)
    requires Run(n, steps) && Within(n, steps, bound) && bound <= LIMIT
    ensures Exclusive(Final(n, steps))
  {
    var z := Final(n, steps);
    RunInv(n, steps);
    forall j, k | 0 <= j < k < |z.clients| && Granted(z.clients[j]) && Granted(z.clients[k])
      ensures z.clients[j].node.kind == Read && z.clients[k].node.kind == Read
    {
      var a, b := z.clients[j].node, z.clients[k].node;
      assert a.number < z.counter && b.number < z.counter;
      if a.kind == Write || b.kind == Write {
        if a.number <= b.number { OnlyOverflow(n, steps, j, k); } else { OnlyOverflow(n, steps, k, j); }
      }
    }
  }

  lemma {:induction false} WithinMore(n: nat, steps: seq<Step>, bound: nat, more: nat)
    requires Run(n, steps) && Within(n, steps, bound) && bound <= more
    ensures Within(n, steps, more)
  {
    if steps != [] {
      WithinMore(n, Front(steps), bound, more);
    }
  }

  /**
   * The comparison of the scan is the order of arrival, of a writer with anyone and of a reader with
   * writers, iff the client's own number has eight digits. Readers never wait for readers.
   */
  lemma ComparisonIff(own: nat)
    ensures (forall n: nat :: n < own ==> Blocks(Child(Write, own), Child(Write, n))) <==> own < 100_000_000
    ensures (forall n: nat :: n < own ==> Blocks(Child(Write, own), Child(Read, n))) <==> own < 100_000_000
    ensures (forall n: nat :: n < own ==> Blocks(Child(Read, own), Child(Write, n))) <==> own < 100_000_000
    ensures forall n: nat :: !Blocks(Child(Read, own), Child(Read, n))
  {
    if own >= LIMIT {
      var n := own % LIMIT;
      assert n < own && !Blocks(Child(Write, own), Child(Write, n));
      assert !Blocks(Child(Write, own), Child(Read, n)) && !Blocks(Child(Read, own), Child(Write, n));
    }
  }

  /**
   * Client `k`, with a number of eight digits, gets the lock by listing the children iff no older child
   * is there, or it and all older ones are readers.
   */
  lemma GrantedIff(n: nat, steps: seq<Step>, k: nat, order: seq<Child>)
    requires Run(n, steps) && Enabled(Final(n, steps), Snapshot(k, order))
    requires Final(n, steps).clients[k].node.number < 100_000_000
    ensures var z := Final(n, steps);
      var own := z.clients[k].node;
      && k < |Next(z, Snapshot(k, order)).clients|
      && (Next(z, Snapshot(k, order)).clients[k] == Holding(own) <==>
            forall i :: i in z.children && i < own.number ==> own.kind == Read && z.children[i].kind == Read)
  {
    hide Run, Final;
    RunInv(n, steps);
    var z := Final(n, steps);
    var own := z.clients[k].node;
    assert own.number in z.children;
    hide Inv, NodesInv, PhaseInv, Lists;
    VerdictIff(own, order, z.children);
  }

  lemma VerdictIff(own: Child, order: seq<Child>, children: map<nat, Znode>)
    requires Lists(order, children) && own.number in children && own.number < 100_000_000
    ensures Verdict(own, order).None? <==>
      forall i :: i in children && i < own.number ==> own.kind == Read && children[i].kind == Read
  {
    assert own.number % LIMIT == own.number;
    if |order| > 1 {
      hide Verdict;
      assert Verdict(own, order).None? <==> forall j :: 0 <= j < |order| ==> !Blocks(own, order[j]) by {
        ScansAll(own, order);
      }
      forall i | i in children && i < own.number
        ensures exists j :: 0 <= j < |order| && order[j] == Child(children[i].kind, i)
      {
        assert Child(children[i].kind, i) in order;
      }
    } else {
      forall i | i in children
        ensures i == own.number
      {
        Single(order, own.number, i, children);
      }
    }
  }

  lemma ScansAll(own: Child, order: seq<Child>)
    requires |order| > 1
    ensures Verdict(own, order).None? <==> forall j :: 0 <= j < |order| ==> !Blocks(own, order[j])
  {}

  // ---------------------------------------------------------------- readers together

  function ReadNodes(m: nat): (r: map<nat, Znode>)
    ensures |r| == m && forall i :: i in r <==> 0 <= i < m
    ensures forall i :: 0 <= i < m ==> r[i] == Znode(Read, i)
  {
    if m == 0 then map[] else ReadNodes(m - 1)[m - 1 := Znode(Read, m - 1)]
  }

  /** Of `n` clients the first `m` hold read locks. */
  function Readers(n: nat, m: nat): Zk
    requires m <= n
  {
    Zk(m > 0, m, ReadNodes(m), seq(n, (i: nat) => if i < m then Holding(Child(Read, i)) else Idle))
  }

  function ReadListing(m: nat): (r: seq<Child>)
    ensures |r| == m && forall i :: 0 <= i < m ==> r[i] == Child(Read, i)
  {
    seq(m, (i: nat) => Child(Read, i))
  }

  lemma ListsReaders(m: nat)
    ensures Lists(ReadListing(m), ReadNodes(m))
  {
    hide ReadNodes, ReadListing;
    forall i | i in ReadNodes(m)
      ensures Child(ReadNodes(m)[i].kind, i) in ReadListing(m)
    {
      assert ReadListing(m)[i] == Child(Read, i);
    }
  }

  lemma OneMoreReader(n: nat, m: nat)
    requires m < n <= MAX_NUMBER
    ensures var z := Readers(n, m);
      && Enabled(z, Open(m, Read))
      && var y := Next(z, Open(m, Read));
      && Enabled(y, Enqueue(m))
      && var x := Next(y, Enqueue(m));
      && x.children == ReadNodes(m + 1) && Enabled(x, Snapshot(m, ReadListing(m + 1)))
      && Next(x, Snapshot(m, ReadListing(m + 1))) == Readers(n, m + 1)
  {
    hide Lists, Verdict;
    ListsReaders(m + 1);
    NobodyToWaitFor(m);
    var x := Next(Next(Readers(n, m), Open(m, Read)), Enqueue(m));
    assert x.children == ReadNodes(m + 1);
    assert Next(x, Snapshot(m, ReadListing(m + 1))).clients == Readers(n, m + 1).clients;
  }

  lemma NobodyToWaitFor(m: nat)
    ensures Verdict(Child(Read, m), ReadListing(m + 1)).None?
  {}

  /** Any number of readers hold the lock at the same time. */
  lemma {:induction false} ReadersTogether(n: nat, m: nat) returns (steps: seq<Step>)
    requires m <= n <= MAX_NUMBER
    ensures Run(n, steps) && Final(n, steps) == Readers(n, m)
    ensures forall k :: 0 <= k < m ==> Final(n, steps).clients[k] == Holding(Child(Read, k))
  {
    if m == 0 {
      steps := [];
    } else {
      hide Run, Final, Next, Enabled, ReadNodes, ReadListing;
      steps := ReadersTogether(n, m - 1);
      OneMoreReader(n, m - 1);
      steps := Continued(n, steps, Open(m - 1, Read));
      steps := Continued(n, steps, Enqueue(m - 1));
      steps := Continued(n, steps, Snapshot(m - 1, ReadListing(m)));
    }
  }

  lemma Continued(n: nat, steps: seq<Step>, step: Step) returns (more: seq<Step>)
    requires Run(n, steps) && Enabled(Final(n, steps), step)
    ensures Run(n, more) && Final(n, more) == Next(Final(n, steps), step)
  {
    more := steps + [step];
    assert Front(more) == steps;
  }

  // ---------------------------------------------------------------- a run that passes 10^8

  function Kids(m: nat): (r: map<nat, Znode>)
    ensures |r| == m && forall i :: i in r <==> 0 <= i < m
    ensures forall i :: 0 <= i < m ==> r[i] == Znode(Write, i)
  {
    if m == 0 then map[] else Kids(m - 1)[m - 1 := Znode(Write, m - 1)]
  }

  /** Of `n` writers the first holds the lock and the next ones up to `m` have queued up. */
  function Crowd(n: nat, m: nat): Zk
    requires 1 <= m <= n
  {
    Zk(true, m, Kids(m), seq(n, (i: nat) => if i == 0 then Holding(Child(Write, 0))
                                     else if i < m then Queued(Child(Write, i)) else Idle))
  }

  /** A run one step longer. */
  lemma Extended(n: nat, steps: seq<Step>, step: Step, bound: nat)
    requires Run(n, steps) && Within(n, steps, bound) && Enabled(Final(n, steps), step)
    requires Next(Final(n, steps), step).counter <= bound
    ensures Run(n, steps + [step]) && Final(n, steps + [step]) == Next(Final(n, steps), step)
    ensures Within(n, steps + [step], bound)
  {
    assert Front(steps + [step]) == steps;
  }

  lemma FirstWriter(n: nat) returns (steps: seq<Step>)
    requires 1 <= n <= MAX_NUMBER
    ensures Run(n, steps) && Final(n, steps) == Crowd(n, 1) && Within(n, steps, 1)
  {
    var open, enqueue, snapshot := Open(0, Write), Enqueue(0), Snapshot(0, [Child(Write, 0)]);
    Extended(n, [], open, 1);
    var one := [] + [open];
    Extended(n, one, enqueue, 1);
    assert Final(n, one + [enqueue]).children == Kids(1);
    Extended(n, one + [enqueue], snapshot, 1);
    steps := one + [enqueue] + [snapshot];
    assert Final(n, steps).clients == Crowd(n, 1).clients;
  }

  /** The next writer opens the parent and queues up. */
  lemma OneMore(n: nat, k: nat)
    requires 1 <= k < n <= MAX_NUMBER
    ensures var z := Crowd(n, k);
      && Enabled(z, Open(k, Write)) && Next(z, Open(k, Write)).counter == k
      && Enabled(Next(z, Open(k, Write)), Enqueue(k))
      && Next(Next(z, Open(k, Write)), Enqueue(k)) == Crowd(n, k + 1)
  {
    var y := Next(Next(Crowd(n, k), Open(k, Write)), Enqueue(k));
    assert y.clients == Crowd(n, k + 1).clients;
  }

  lemma {:induction false} Crowded(n: nat, m: nat) returns (steps: seq<Step>)
    requires 1 <= m <= n <= MAX_NUMBER
    ensures Run(n, steps) && Final(n, steps) == Crowd(n, m) && Within(n, steps, m)
  {
    if m == 1 {
      steps := FirstWriter(n);
    } else {
      assert Crowd(n, m).counter == m;
      hide Run, Final, Within, Crowd, Next, Enabled, Kids;
      var k := m - 1;
      steps := Crowded(n, k);
      WithinMore(n, steps, k, m);
      OneMore(n, k);
      Extended(n, steps, Open(k, Write), m);
      steps := steps + [Open(k, Write)];
      Extended(n, steps, Enqueue(k), m);
      steps := steps + [Enqueue(k)];
    }
  }

  /** The children of the crowd as one listing. */
  function Listing(m: nat): (r: seq<Child>)
    ensures |r| == m && forall i :: 0 <= i < m ==> r[i] == Child(Write, i)
  {
    seq(m, (i: nat) => Child(Write, i))
  }

  lemma ListsKids(m: nat)
    ensures Lists(Listing(m), Kids(m))
  {
    hide Kids, Listing;
    forall i | i in Kids(m)
      ensures Child(Kids(m)[i].kind, i) in Listing(m)
    {
      assert Listing(m)[i] == Child(Write, i);
    }
  }

  /** Writer number 10^8 reads its own number as 0 and waits for nobody. */
  lemma NinthDigit(order: seq<Child>)
    ensures Verdict(Child(Write, LIMIT), order).None?
  {
    assert LIMIT % LIMIT == 0;
  }

  /** In the crowd, writer `k` and the first writer both hold the lock once `k` is granted. */
  lemma BothHold(n: nat, k: nat)
    requires 0 < k < n
    ensures var y := Move(Crowd(n, n), k, Holding(Child(Write, k))); y.counter == n && !Exclusive(y)
  {
    hide Kids;
    var y := Move(Crowd(n, n), k, Holding(Child(Write, k)));
    assert y.clients[0] == Holding(Child(Write, 0)) && y.clients[k] == Holding(Child(Write, k));
  }

  lemma CrowdGrants(n: nat)
    requires n == LIMIT + 1
    ensures var z, step := Crowd(n, n), Snapshot(LIMIT, Listing(n));
      Enabled(z, step) && Next(z, step) == Move(z, LIMIT, Holding(Child(Write, LIMIT)))
  {
    ListsKids(n);
    NinthDigit(Listing(n));
    hide Kids, Listing, Verdict, Lists;
  }

  lemma Overrun() returns (steps: seq<Step>)
    ensures var n := LIMIT + 1;
      && Run(n, steps) && Within(n, steps, n)
      && !Exclusive(Final(n, steps))
  {
    hide Run, Final, Within, Crowd, Next, Enabled, Exclusive, Listing;
    var n := LIMIT + 1;
    steps := Crowded(n, n);
    CrowdGrants(n);
    BothHold(n, LIMIT);
    Extended(n, steps, Snapshot(LIMIT, Listing(n)), n);
    steps := steps + [Snapshot(LIMIT, Listing(n))];
  }

  // ---------------------------------------------------------------- progress

  predicate Wants(p: Phase) {
    p.Queued? || p.Waiting?
  }

  lemma {:induction false} Smallest(children: map<nat, Znode>, n: nat) returns (m: nat)
    requires n in children
    ensures m in children && forall i :: i in children ==> m <= i
    decreases n
  {
    if i :| i in children && i < n {
      m := Smallest(children, i);
    } else {
      m := n;
    }
  }

  /** The owner of the smallest child is not kept waiting: its blocker is gone and the next listing grants. */
  lemma SmallestGranted(z: Zk, k: nat, order: seq<Child>)
    requires Inv(z) && k < |z.clients| && Wants(z.clients[k]) && Lists(order, z.children)
    requires forall i :: i in z.children ==> z.clients[k].node.number <= i
    ensures z.clients[k].Waiting? ==> Next(z, Poll(k)) == Move(z, k, Queued(z.clients[k].node))
    ensures var y := if z.clients[k].Waiting? then Next(z, Poll(k)) else z;
      && Enabled(y, Snapshot(k, order))
      && Next(y, Snapshot(k, order)).clients[k] == Holding(z.clients[k].node)
  {
    assert PhaseInv(z, k);
    var c := z.clients[k].node;
    forall i | 0 <= i < |order|
      ensures !Blocks(c, order[i])
    {
      assert c.number <= order[i].number;
    }
  }

  /**
   * In every state of every run: if clients are waiting, then a lock is held, or some waiting client
   * is first in line and gets the lock by its own next steps, whatever order the children are listed in.
   */
  lemma Progress(n: nat, steps: seq<Step>, w: nat)
    requires Run(n, steps) && w < n && |Final(n, steps).clients| == n && Wants(Final(n, steps).clients[w])
    ensures var z := Final(n, steps);
      || (exists k :: 0 <= k < n && Granted(z.clients[k]))
      || (exists k :: 0 <= k < n && Wants(z.clients[k]) && FirstInLine(z, k))
  {
    RunInv(n, steps);
    var z := Final(n, steps);
    var m := Smallest(z.children, z.clients[w].node.number);
    var k := z.children[m].owner;
    if !Granted(z.clients[k]) {
      forall order | Lists(order, z.children)
        ensures GrantedBy(z, k, order)
      {
        SmallestGranted(z, k, order);
      }
      assert FirstInLine(z, k);
    }
  }

  /** Client `k` has the smallest number, and its own next steps end with the lock held. */
  ghost predicate FirstInLine(z: Zk, k: nat) {
    && k < |z.clients| && Wants(z.clients[k])
    && (forall i :: i in z.children ==> z.clients[k].node.number <= i)
    && forall order :: Lists(order, z.children) ==> GrantedBy(z, k, order)
  }

  ghost predicate GrantedBy(z: Zk, k: nat, order: seq<Child>)
    requires k < |z.clients| && Wants(z.clients[k])
  {
    var y := if z.clients[k].Waiting? then Next(z, Poll(k)) else z;
    && Enabled(y, Snapshot(k, order))
    && Next(y, Snapshot(k, order)).clients[k] == Holding(z.clients[k].node)
  }

  lemma NodeAfter(z: Zk, step: Step, k: nat)
    requires Enabled(z, step) && k < |z.clients| && HasNode(z.clients[k])
    ensures HasNode(Next(z, step).clients[k]) ==> Next(z, step).clients[k].node == z.clients[k].node
  {
    hide Verdict, Lists, Exists;
    if k != step.client {
      assert Next(z, step).clients[k] == z.clients[k];
    }
  }

  lemma ChildrenAfter(z: Zk, step: Step, k: nat, i: nat)
    requires NodesInv(z) && Enabled(z, step) && k < |z.clients| && HasNode(z.clients[k])
    requires i in Next(z, step).children
    ensures i > z.clients[k].node.number || (i in z.children && z.children[i] == Next(z, step).children[i])
  {
    assert z.parent;
  }

  /** Nobody overtakes: the children a queued client may have to wait for only become fewer. */
  lemma NoOvertaking(n: nat, steps: seq<Step>, step: Step, k: nat, i: nat)
    requires Run(n, steps) && Enabled(Final(n, steps), step)
    requires var z, y := Final(n, steps), Next(Final(n, steps), step);
      && k < |z.clients| == |y.clients| && HasNode(z.clients[k]) && HasNode(y.clients[k])
      && i in y.children && i <= y.clients[k].node.number
    ensures var z, y := Final(n, steps), Next(Final(n, steps), step);
      && y.clients[k].node == z.clients[k].node && i in z.children && z.children[i] == y.children[i]
  {
    RunInv(n, steps);
    hide Run, Final, NodesInv, Next, Enabled, PhaseInv;
    NodeAfter(Final(n, steps), step, k);
    ChildrenAfter(Final(n, steps), step, k, i);
  }

  // ---------------------------------------------------------------- the parent

  /** Between creating and deleting its node a client always finds the parent and its own node. */
  lemma ParentStays(n: nat, steps: seq<Step>, k: nat)
    requires Run(n, steps) && k < |Final(n, steps).clients| && HasNode(Final(n, steps).clients[k])
    ensures var z := Final(n, steps);
      z.parent && Exists(z, z.clients[k].node) && z.children[z.clients[k].node.number].owner == k
  {
    RunInv(n, steps);
  }

  /** The parent goes only when it has no children, and nobody's node goes with it. */
  lemma ParentDeletedChildless(n: nat, steps: seq<Step>, step: Step)
    requires Run(n, steps) && Enabled(Final(n, steps), step)
    requires Final(n, steps).parent && !Next(Final(n, steps), step).parent
    ensures step.Sweep? && Final(n, steps).children == map[]
    ensures forall k :: 0 <= k < |Final(n, steps).clients| ==> !HasNode(Final(n, steps).clients[k])
  {
    RunInv(n, steps);
  }
}
