/**
 * The read/write lock over ZooKeeper: any number of clients, each running `Lock` and `Unlock` on one
 * path. A step is one call to ZooKeeper together with what the client computes before its next call.
 */
module ZkLock {
  import opened Wrappers

  datatype Kind = Read | Write

  /** A sequential child: its name is the kind's letter and its number. */
  datatype Child = Child(kind: Kind, number: nat)

  /** An ephemeral node belongs to the client that created it. */
  datatype Znode = Znode(kind: Kind, owner: nat)

  datatype Phase =
    | Idle
    | Opening(kind: Kind)                      // the parent was there or has been created
    | Queued(node: Child)                      // about to list the children
    | Waiting(node: Child, blocker: Child)     // polls until the blocker is gone
    | Holding(node: Child)
    | Leaving(node: Child, alone: bool)        // has listed the children, about to delete its own
    | Clearing                                 // was alone: about to look for the parent
    | Sweeping                                 // the parent was there: about to delete it

  /** The znodes below one path. The counter restarts with every new parent. */
  datatype Zk = Zk(parent: bool, counter: nat, children: map<nat, Znode>, clients: seq<Phase>)

  datatype Step =
    | Open(client: nat, kind: Kind)
    | Enqueue(client: nat)
    | Snapshot(client: nat, order: seq<Child>)
    | Poll(client: nat)
    | Release(client: nat)
    | DeleteOwn(client: nat)
    | Look(client: nat)
    | Sweep(client: nat)

  /** A client reads eight digits of its own number, and ten of anyone else's. */
  const LIMIT: nat := 100_000_000

  /** Sequence numbers are signed 32-bit integers; runs end before the counter overflows. */
  const MAX_NUMBER: nat := 0x7FFF_FFFF

  predicate Conflicts(a: Kind, b: Kind) {
    a == Write || b == Write
  }

  /** The test of the scan: whether a client with node `own` waits for `c`. */
  predicate Blocks(own: Child, c: Child) {
    Conflicts(own.kind, c.kind) && own.number % LIMIT > c.number
  }

  /** The first listed child the scan stops at. */
  function FirstBlocker(own: Child, order: seq<Child>): (r: Option<Child>)
    ensures r.None? <==> forall i :: 0 <= i < |order| ==> !Blocks(own, order[i])
    ensures r.Some? ==> r.value in order && Blocks(own, r.value)
  {
    if order == [] then None
    else if Blocks(own, order[0]) then Some(order[0])
    else FirstBlocker(own, order[1..])
  }

  /** A listing of one child is not scanned at all. */
  function Verdict(own: Child, order: seq<Child>): Option<Child> {
    if |order| > 1 then FirstBlocker(own, order) else None
  }

  // ---------------------------------------------------------------- steps

  /** `order` lists the children, in whatever order. */
  predicate Lists(order: seq<Child>, children: map<nat, Znode>) {
    && |order| == |children|
    && (forall i :: 0 <= i < |order| ==>
          order[i].number in children && children[order[i].number].kind == order[i].kind)
    && (forall n :: n in children ==> Child(children[n].kind, n) in order)
  }

  predicate Enabled(z: Zk, step: Step) {
    && step.client < |z.clients|
    && var p := z.clients[step.client];
       match step
       case Open(_, _) => p.Idle?
       case Enqueue(_) => p.Opening? && (z.parent ==> z.counter < MAX_NUMBER)
       case Snapshot(_, order) => p.Queued? && Lists(order, z.children)
       case Poll(_) => p.Waiting?
       case Release(_) => p.Holding?
       case DeleteOwn(_) => p.Leaving?
       case Look(_) => p.Clearing?
       case Sweep(_) => p.Sweeping?
  }

  function Move(z: Zk, k: nat, p: Phase): Zk
    requires k < |z.clients|
  {
    z.(clients := z.clients[k := p])
  }

  function Next(z: Zk, step: Step): (r: Zk)
    requires Enabled(z, step)
    ensures |r.clients| == |z.clients|
  {
    var k := step.client;
    var p := z.clients[k];
    match step
    case Open(_, kind) =>
      Move(if z.parent then z else z.(parent := true, counter := 0, children := map[]), k, Opening(kind))
    case Enqueue(_) =>
      if !z.parent then Move(z, k, Idle)   // no node: Lock throws
      else Move(z.(counter := z.counter + 1, children := z.children[z.counter := Znode(p.kind, k)]),
                k, Queued(Child(p.kind, z.counter)))
    case Snapshot(_, order) =>
      (match Verdict(p.node, order)
       case None => Move(z, k, Holding(p.node))
       case Some(b) => Move(z, k, Waiting(p.node, b)))
    case Poll(_) =>
      if Exists(z, p.blocker) then z else Move(z, k, Queued(p.node))
    case Release(_) => Move(z, k, Leaving(p.node, |z.children| <= 1))
    case DeleteOwn(_) =>
      Move(z.(children := z.children - {p.node.number}), k, if p.alone then Clearing else Idle)
    case Look(_) => Move(z, k, if z.parent then Sweeping else Idle)
    case Sweep(_) =>
      // a missing parent is fine; one with children again makes Unlock throw
      if z.parent && z.children == map[] then Move(z.(parent := false), k, Idle) else Move(z, k, Idle)
  }

  predicate Exists(z: Zk, c: Child) {
    c.number in z.children && z.children[c.number].kind == c.kind
  }

  function Init(n: nat): Zk {
    Zk(false, 0, map[], seq(n, _ => Idle))
  }

  /** The state after a run of `n` clients, and whether the run is one. */
  ghost predicate Run(n: nat, steps: seq<Step>)
    decreases |steps|, 0
  {
    steps == [] || (Run(n, Front(steps)) && Enabled(Final(n, Front(steps)), Last(steps)))
  }

  ghost function Final(n: nat, steps: seq<Step>): Zk
    requires Run(n, steps)
    decreases |steps|, 1
  {
    if steps == [] then Init(n) else Next(Final(n, Front(steps)), Last(steps))
  }

  function Front(steps: seq<Step>): seq<Step>
    requires steps != []
  {
    steps[..|steps| - 1]
  }

  function Last(steps: seq<Step>): Step
    requires steps != []
  {
    steps[|steps| - 1]
  }

  // ---------------------------------------------------------------- what every step keeps

  predicate HasNode(p: Phase) {
    p.Queued? || p.Waiting? || p.Holding? || p.Leaving?
  }

  /** From the grant until the node is gone. */
  predicate Granted(p: Phase) {
    p.Holding? || p.Leaving?
  }

  ghost predicate NodesInv(z: Zk) {
    && (!z.parent ==> z.children == map[]) && z.counter <= MAX_NUMBER
    && (forall n :: n in z.children ==>
          && n < z.counter
          && var x := z.children[n];
             x.owner < |z.clients| && HasNode(z.clients[x.owner]) && z.clients[x.owner].node == Child(x.kind, n))
    && (forall k :: 0 <= k < |z.clients| && HasNode(z.clients[k]) ==>
          var c := z.clients[k].node;
          c.number in z.children && z.children[c.number] == Znode(c.kind, k))
  }

  ghost predicate PhaseInv(z: Zk, k: nat)
    requires k < |z.clients|
  {
    match z.clients[k]
    case Waiting(c, b) => Blocks(c, b)
    case Holding(c) => Oldest(z, c)
    case Leaving(c, _) => Oldest(z, c)
    case _ => true
  }

  /** No conflicting child is older, if the number of `c` fits its eight digits. */
  ghost predicate Oldest(z: Zk, c: Child) {
    c.number < LIMIT ==>
      forall n :: n in z.children && Conflicts(c.kind, z.children[n].kind) ==> n >= c.number
  }

  ghost predicate Inv(z: Zk) {
    && NodesInv(z)
    && forall k :: 0 <= k < |z.clients| ==> PhaseInv(z, k)
  }

  /** The children are the same, and so is the node of the client that moves. */
  lemma NodesMoved(z: Zk, k: nat, p: Phase)
    requires NodesInv(z) && k < |z.clients|
    requires HasNode(p) == HasNode(z.clients[k]) && (HasNode(p) ==> p.node == z.clients[k].node)
    ensures NodesInv(Move(z, k, p))
  {}

  lemma NodesEnqueued(z: Zk, k: nat)
    requires NodesInv(z) && Enabled(z, Enqueue(k))
    ensures NodesInv(Next(z, Enqueue(k)))
  {}

  lemma NodesDeleted(z: Zk, k: nat)
    requires NodesInv(z) && Enabled(z, DeleteOwn(k))
    ensures NodesInv(Next(z, DeleteOwn(k)))
  {}

  lemma NodesStep(z: Zk, step: Step)
    requires NodesInv(z) && Enabled(z, step)
    ensures NodesInv(Next(z, step))
  {
    var k := step.client;
    match step
    case Enqueue(_) => NodesEnqueued(z, k);
    case DeleteOwn(_) => NodesDeleted(z, k);
    case Open(_, kind) =>
      var y := if z.parent then z else z.(parent := true, counter := 0, children := map[]);
      NodesMoved(y, k, Opening(kind));
    case _ =>
      if Next(z, step) != z {
        NodesMoved(z, k, Next(z, step).clients[k]);
      }
  }

  lemma GrantOldest(z: Zk, own: Child, order: seq<Child>)
    requires NodesInv(z) && Lists(order, z.children) && Verdict(own, order).None? && own.number in z.children
    ensures Oldest(z, own)
  {
    if own.number < LIMIT {
      forall n | n in z.children && Conflicts(own.kind, z.children[n].kind)
        ensures n >= own.number
      {
        var c := Child(z.children[n].kind, n);
        if |order| > 1 {
          var i :| 0 <= i < |order| && order[i] == c;
          assert !Blocks(own, order[i]);
        } else {
          Single(order, own.number, n, z.children);
        }
      }
    }
  }

  lemma Single(order: seq<Child>, a: nat, b: nat, children: map<nat, Znode>)
    requires |order| <= 1 && Lists(order, children) && a in children && b in children
    ensures a == b
  {
    assert Child(children[a].kind, a) in order && Child(children[b].kind, b) in order;
  }

  /** New children are younger than any node there is. */
  lemma OtherPhase(z: Zk, step: Step, k: nat)
    requires Inv(z) && Enabled(z, step) && k < |z.clients| && k != step.client
    ensures PhaseInv(Next(z, step), k)
  {
    assert PhaseInv(z, k);
    assert Next(z, step).clients[k] == z.clients[k];
  }

  lemma PhaseStep(z: Zk, step: Step, k: nat)
    requires Inv(z) && Enabled(z, step) && k < |z.clients|
    ensures PhaseInv(Next(z, step), k)
  {
    assert PhaseInv(z, k);
    if k != step.client {
      OtherPhase(z, step, k);
    } else if step.Snapshot? {
      if Verdict(z.clients[k].node, step.order).None? {
        GrantOldest(z, z.clients[k].node, step.order);
      }
    }
  }

  lemma StepInv(z: Zk, step: Step)
    requires Inv(z) && Enabled(z, step)
    ensures Inv(Next(z, step))
  {
    NodesStep(z, step);
    hide NodesInv, PhaseInv, Next, Enabled;
    forall k | 0 <= k < |Next(z, step).clients|
      ensures PhaseInv(Next(z, step), k)
    {
      PhaseStep(z, step, k);
    }
  }

  lemma {:induction false} RunInv(n: nat, steps: seq<Step>)
    requires Run(n, steps)
    ensures Inv(Final(n, steps)) && |Final(n, steps).clients| == n
  {
    if steps == [] {
      assert Inv(Init(n));
    } else {
      hide Inv, Next, Enabled;
      RunInv(n, Front(steps));
      StepInv(Final(n, Front(steps)), Last(steps));
    }
  }
}
