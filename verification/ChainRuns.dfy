/**
 * Runs for chains of every length, any clients, keys and values: clients connect, and a write is
 * carried down the chain hop by hop.
 */
module ChainRuns {
  import opened KeyValue
  import opened Chain
  import opened ChainSafety
  import opened ChainResponses
  import opened Wrappers

  // ---------------------------------------------------------------- runs, step by step

  function Start(n: nat): System {
    System(n, [], seq(n + 1, _ => Datalet(map[], [])), [], [], false)
  }

  lemma Started(n: nat)
    requires n >= 1
    ensures Init(Start(n)) && DisciplinedRun(Start(n), []) && Final(Start(n), []) == Start(n)
  {}

  /** No socket fails and nobody hangs up. */
  ghost predicate Working(steps: seq<Step>) {
    forall j :: 0 <= j < |steps| ==>
      !steps[j].SendFails? && !steps[j].ReceiveFails? && !steps[j].RespondFails? && !steps[j].Hangup?
  }

  lemma {:induction false} DisciplinedWorks(s: System, steps: seq<Step>)
    requires DisciplinedRun(s, steps)
    ensures Working(steps)
  {
    hide Run, Final;
    if steps != [] {
      DisciplinedWorks(s, steps[..|steps| - 1]);
    }
  }

  lemma Extend(s: System, steps: seq<Step>, step: Step)
    requires Run(s, steps) && Shaped(Final(s, steps)) && Enabled(Final(s, steps), step)
    ensures Run(s, steps + [step])
    ensures Final(s, steps + [step]) == Next(Final(s, steps), step)
    ensures Shaped(Final(s, steps + [step]))
    ensures DisciplinedRun(s, steps) && Disciplined(Final(s, steps), step) ==> DisciplinedRun(s, steps + [step])
  {
    hide Enabled, Next, Disciplined;
    assert (steps + [step])[..|steps|] == steps;
    NextShaped(Final(s, steps), step);
  }

  // ---------------------------------------------------------------- one connection

  ghost predicate Sound(k: Conn, n: nat) {
    && ShapedConn(k, n) && !k.g.client.error && Unflagged(k.g.links)
    && forall i :: 0 <= i <= n ==> !k.g.links[i].error
  }

  ghost predicate Clear(l: Link, sock: Socket) {
    l.imsg == [] && l.omsg == [] && sock == Socket([], [])
  }

  /** A client that has not asked for anything. */
  ghost predicate Unused(k: Conn, n: nat) {
    && Sound(k, n) && k.admitted == [] && k.replied == [] && k.g.client.imsg == []
    && forall j :: 0 <= j <= n ==> Clear(k.g.links[j], k.socks[j])
  }

  /** Where a request is at a link: in its queue, on the wire, or executed and not yet acknowledged. */
  datatype Stage = Queued | Sent | Executed

  ghost predicate At(k: Conn, i: nat, stage: Stage, op: Op)
    requires i < |k.g.links| && i < |k.socks|
  {
    var l, sock := k.g.links[i], k.socks[i];
    match stage
    case Queued => l.imsg == [op] && l.omsg == [] && sock == Socket([], [])
    case Sent => l.imsg == [] && l.omsg == [op] && sock == Socket([op], [])
    case Executed => l.imsg == [] && l.omsg == [op] && sock == Socket([], [Stored])
  }

  /** The client has asked for one write, and it is at link `i`. */
  ghost predicate Carries(k: Conn, n: nat, op: Op, i: nat, stage: Stage) {
    && Sound(k, n) && i <= n && op.cmd.Set? && k.g.links[0].fwd
    && k.admitted == [op] && k.replied == [] && k.g.client.imsg == []
    && At(k, i, stage, op)
    && forall j :: 0 <= j <= n && j != i ==> Clear(k.g.links[j], k.socks[j])
  }

  /** The write is through, and its acknowledgement waits for the client. */
  ghost predicate Through(k: Conn, n: nat, op: Op) {
    && Sound(k, n) && k.admitted == [op] && k.replied == [] && k.g.client.imsg == [Stored]
    && forall j :: 0 <= j <= n ==> Clear(k.g.links[j], k.socks[j])
  }

  function Did(d: Datalet, op: Op): Datalet {
    Datalet(Store(d.kv, op.cmd), d.log + [Entry(op, Stored)])
  }

  // ---------------------------------------------------------------- one step

  /** Only client `c` has moved. */
  ghost predicate Others(s: System, t: System, c: nat) {
    && t.n == s.n && t.aborted == s.aborted && |t.conns| == |s.conns| && |t.datalets| == |s.datalets|
    && forall d :: 0 <= d < |s.conns| && d != c ==> t.conns[d] == s.conns[d]
  }

  ghost predicate Carrying(s: System, c: nat, op: Op, i: nat, stage: Stage) {
    Shaped(s) && !s.aborted && c < |s.conns| && Carries(s.conns[c], s.n, op, i, stage)
  }

  lemma Asks(s: System, c: nat, op: Op)
    requires Shaped(s) && !s.aborted && c < |s.conns| && Unused(s.conns[c], s.n)
    requires op == Op(c, 0, op.cmd) && op.cmd.Set?
    ensures Enabled(s, Request(c, op.cmd)) && Disciplined(s, Request(c, op.cmd))
    ensures var t := Next(s, Request(c, op.cmd));
      Others(s, t, c) && t.datalets == s.datalets && Carrying(t, c, op, 0, Queued)
  {
    NextShaped(s, Request(c, op.cmd));
  }

  lemma Sends(s: System, c: nat, op: Op, i: nat)
    requires Carrying(s, c, op, i, Queued)
    ensures Enabled(s, SendTo(c, i))
    ensures var t := Next(s, SendTo(c, i));
      Others(s, t, c) && t.datalets == s.datalets && Carrying(t, c, op, i, Sent)
  {
    NextShaped(s, SendTo(c, i));
  }

  lemma Executes(s: System, c: nat, op: Op, i: nat)
    requires Carrying(s, c, op, i, Sent)
    ensures Enabled(s, Execute(c, i))
    ensures var t := Next(s, Execute(c, i));
      && Others(s, t, c) && t.datalets == s.datalets[i := Did(s.datalets[i], op)]
      && Carrying(t, c, op, i, Executed)
  {
    NextShaped(s, Execute(c, i));
  }

  /** The connection after the response of link `i` has been read. */
  function Read(k: Conn, i: nat, g: Group): Conn
    requires i < |k.socks| && k.socks[i].rsps != []
  {
    k.(g := g, socks := k.socks[i := k.socks[i].(rsps := k.socks[i].rsps[1..])])
  }

  lemma PassedOn(k: Conn, n: nat, op: Op, i: nat)
    requires Carries(k, n, op, i, Executed) && i < n
    ensures var r := Recv(k.g, i, Some(Stored));
      r.Ok? && Carries(Read(k, i, r.group), n, op, i + 1, Queued)
  {
    if i == 0 {
      assert Recv(k.g, i, Some(Stored)) == Forward(k.g, 0);
    } else {
      assert Recv(k.g, i, Some(Stored)) == Forward(k.g, i);
    }
    hide Recv;
  }

  lemma Acknowledged(k: Conn, n: nat, op: Op)
    requires n >= 1 && Carries(k, n, op, n, Executed)
    ensures var r := Recv(k.g, n, Some(Stored));
      r.Ok? && Through(Read(k, n, r.group), n, op)
  {}

  lemma Receives(s: System, c: nat, op: Op, i: nat)
    requires Carrying(s, c, op, i, Executed)
    ensures Enabled(s, Receive(c, i))
    ensures var t := Next(s, Receive(c, i));
      && Others(s, t, c) && t.datalets == s.datalets && Shaped(t)
      && if i < s.n then Carrying(t, c, op, i + 1, Queued) else Through(t.conns[c], t.n, op)
  {
    NextShaped(s, Receive(c, i));
    var k := s.conns[c];
    if i < s.n {
      PassedOn(k, s.n, op, i);
    } else {
      Acknowledged(k, s.n, op);
    }
    hide Recv, Through;
  }

  // ---------------------------------------------------------------- hops

  /** The three steps that take a write from a link's queue to the next one's, or to the client. */
  lemma Hop(s: System, steps: seq<Step>, c: nat, op: Op, i: nat) returns (more: seq<Step>)
    requires DisciplinedRun(s, steps) && Carrying(Final(s, steps), c, op, i, Queued)
    ensures DisciplinedRun(s, more)
    ensures var f, g := Final(s, steps), Final(s, more);
      && Others(f, g, c) && Shaped(f) && Shaped(g) && i <= f.n
      && g.datalets == f.datalets[i := Did(f.datalets[i], op)]
      && if i < f.n then Carrying(g, c, op, i + 1, Queued) else Through(g.conns[c], g.n, op)
  {
    hide Final, Run, DisciplinedRun, Next, Enabled, Carries, Through;
    RunOf(s, steps);
    Sends(Final(s, steps), c, op, i);
    Extend(s, steps, SendTo(c, i));
    more := steps + [SendTo(c, i)];
    RunOf(s, more);
    Executes(Final(s, more), c, op, i);
    Extend(s, more, Execute(c, i));
    more := more + [Execute(c, i)];
    RunOf(s, more);
    Receives(Final(s, more), c, op, i);
    Extend(s, more, Receive(c, i));
    more := more + [Receive(c, i)];
  }

  lemma RunOf(s: System, steps: seq<Step>)
    requires DisciplinedRun(s, steps)
    ensures Run(s, steps)
  {}

  /** A write is carried to link `m` while nobody else moves. */
  lemma {:induction false} Carry(s: System, steps: seq<Step>, c: nat, op: Op, i: nat, m: nat) returns (more: seq<Step>)
    requires DisciplinedRun(s, steps) && Carrying(Final(s, steps), c, op, i, Queued) && i <= m <= Final(s, steps).n
    ensures DisciplinedRun(s, more)
    ensures var f, g := Final(s, steps), Final(s, more);
      && Others(f, g, c) && Shaped(f) && Carrying(g, c, op, m, Queued)
      && (forall j :: 0 <= j <= f.n && !(i <= j < m) ==> g.datalets[j] == f.datalets[j])
      && (forall j :: i <= j < m ==> g.datalets[j] == Did(f.datalets[j], op))
    decreases m - i
  {
    hide Final, Run, DisciplinedRun, Carries, Through, Did;
    if i == m {
      more := steps;
    } else {
      more := Hop(s, steps, c, op, i);
      more := Carry(s, more, c, op, i + 1, m);
    }
  }

  /** A write goes the rest of its way while nobody else moves. */
  lemma Finish(s: System, steps: seq<Step>, c: nat, op: Op, i: nat) returns (more: seq<Step>)
    requires DisciplinedRun(s, steps) && Carrying(Final(s, steps), c, op, i, Queued) && i <= Final(s, steps).n
    ensures DisciplinedRun(s, more)
    ensures var f, g := Final(s, steps), Final(s, more);
      && Others(f, g, c) && Shaped(f) && Shaped(g) && Through(g.conns[c], g.n, op)
      && (forall j :: 0 <= j < i ==> g.datalets[j] == f.datalets[j])
      && (forall j :: i <= j <= f.n ==> g.datalets[j] == Did(f.datalets[j], op))
  {
    hide Final, Run, DisciplinedRun, Carries, Through, Did;
    more := Carry(s, steps, c, op, i, Final(s, steps).n);
    more := Hop(s, more, c, op, Final(s, steps).n);
  }

  lemma Ask(s: System, steps: seq<Step>, c: nat, op: Op) returns (more: seq<Step>)
    requires DisciplinedRun(s, steps) && Shaped(Final(s, steps)) && !Final(s, steps).aborted
    requires c < |Final(s, steps).conns| && Unused(Final(s, steps).conns[c], Final(s, steps).n)
    requires op == Op(c, 0, op.cmd) && op.cmd.Set?
    ensures DisciplinedRun(s, more)
    ensures var f, g := Final(s, steps), Final(s, more);
      Others(f, g, c) && g.datalets == f.datalets && Carrying(g, c, op, 0, Queued)
  {
    hide Final, Run, DisciplinedRun, Next, Enabled, Unused, Carries;
    RunOf(s, steps);
    Asks(Final(s, steps), c, op);
    Extend(s, steps, Request(c, op.cmd));
    more := steps + [Request(c, op.cmd)];
  }

  // ---------------------------------------------------------------- clients that connect

  function Calm(): Link {
    Link([], [], false, false, false, false, false)
  }

  function NewGroup(n: nat): Group {
    Group(seq(n + 1, _ => Calm()), ClientLink([], true, false, false))
  }

  /** `m` clients have connected, and nothing else has happened. */
  ghost predicate Connected(s: System, n: nat, m: nat) {
    && Shaped(s) && s.n == n && !s.aborted && |s.conns| == m
    && (forall c :: 0 <= c < m ==> Unused(s.conns[c], n))
    && forall i :: 0 <= i <= n ==> s.datalets[i] == Datalet(map[], [])
  }

  lemma ConnectStep(s: System, n: nat, m: nat)
    requires Connected(s, n, m)
    ensures Enabled(s, Accept(NewGroup(n))) && Connected(Next(s, Accept(NewGroup(n))), n, m + 1)
  {
    NextShaped(s, Accept(NewGroup(n)));
  }

  lemma {:induction false} Connect(n: nat, m: nat) returns (steps: seq<Step>)
    requires n >= 1
    ensures DisciplinedRun(Start(n), steps) && Connected(Final(Start(n), steps), n, m)
  {
    if m == 0 {
      steps := [];
      Started(n);
    } else {
      hide Final, Run, DisciplinedRun, Next, Enabled, Connected;
      var init := Connect(n, m - 1);
      IsShaped(Final(Start(n), init), n, m - 1);
      RunOf(Start(n), init);
      ConnectStep(Final(Start(n), init), n, m - 1);
      Extend(Start(n), init, Accept(NewGroup(n)));
      steps := init + [Accept(NewGroup(n))];
    }
  }

  lemma IsShaped(s: System, n: nat, m: nat)
    requires Connected(s, n, m)
    ensures Shaped(s)
  {}
}
