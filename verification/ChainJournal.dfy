/**
 * The request log in every run, disciplined or not, with failing sockets: it holds exactly the
 * writes that were asked for, and it holds a write before anybody sees it.
 */
module ChainJournal {
  import opened KeyValue
  import opened Chain
  import opened ChainConservation
  import opened ChainSafety
  import opened ChainResponses
  import opened ChainRuns
  import opened ChainCounterexamples
  import opened Wrappers

  // ---------------------------------------------------------------- what every step keeps

  ghost predicate InLog(ops: seq<Op>, kafka: seq<Op>) {
    forall j :: 0 <= j < |ops| && ops[j].cmd.Set? ==> ops[j] in kafka
  }

  ghost predicate LinkLogged(l: Link, sock: Socket, kafka: seq<Op>) {
    InLog(l.imsg, kafka) && InLog(l.omsg, kafka) && InLog(sock.wire, kafka)
  }

  ghost predicate ConnLogged(k: Conn, n: nat, kafka: seq<Op>) {
    && ShapedConn(k, n)
    && forall i :: 0 <= i <= n ==> LinkLogged(k.g.links[i], k.socks[i], kafka)
  }

  ghost predicate DataletsLogged(datalets: seq<Datalet>, kafka: seq<Op>) {
    forall i :: 0 <= i < |datalets| ==> InLog(Ops(datalets[i].log), kafka)
  }

  ghost predicate OwnRequests(conns: seq<Conn>) {
    forall c :: 0 <= c < |conns| ==> Numbered(conns[c].admitted, c)
  }

  ghost predicate AllLogged(s: System) {
    && Shaped(s) && OwnRequests(s.conns) && Journaled(s.kafka, s.conns) && DataletsLogged(s.datalets, s.kafka)
    && forall c :: 0 <= c < |s.conns| ==> ConnLogged(s.conns[c], s.n, s.kafka)
  }

  // ---------------------------------------------------------------- one connection

  lemma LinkMore(l: Link, sock: Socket, kafka: seq<Op>, kafka': seq<Op>)
    requires LinkLogged(l, sock, kafka) && kafka <= kafka'
    ensures LinkLogged(l, sock, kafka')
  {
    assert forall x :: x in kafka ==> x in kafka';
  }

  lemma ConnMore(k: Conn, n: nat, kafka: seq<Op>, kafka': seq<Op>)
    requires ConnLogged(k, n, kafka) && kafka <= kafka'
    ensures ConnLogged(k, n, kafka')
  {
    forall i | 0 <= i <= n
      ensures LinkLogged(k.g.links[i], k.socks[i], kafka')
    {
      LinkMore(k.g.links[i], k.socks[i], kafka, kafka');
    }
  }

  lemma AskLogged(k: Conn, n: nat, op: Op, kafka: seq<Op>)
    requires n >= 1 && ConnLogged(k, n, kafka)
    ensures var kafka' := if op.cmd.Set? then kafka + [op] else kafka;
      ConnLogged(k.(g := Admit(k.g, op), admitted := k.admitted + [op]), n, kafka')
  {
    var kafka' := if op.cmd.Set? then kafka + [op] else kafka;
    ConnMore(k, n, kafka, kafka');
    var l := if op.cmd.Set? then 0 else n;
    assert LinkLogged(k.g.links[0], k.socks[0], kafka') && LinkLogged(k.g.links[l], k.socks[l], kafka');
  }

  lemma SendLogged(k: Conn, n: nat, i: nat, kafka: seq<Op>)
    requires ConnLogged(k, n, kafka) && i <= n
    ensures var l, sock := k.g.links[i], k.socks[i];
      && ConnLogged(k.(g := k.g.(links := k.g.links[i := Send(l, true)]),
                       socks := k.socks[i := sock.(wire := sock.wire + l.imsg[..if l.imsg == [] then 0 else 1])]),
                    n, kafka)
      && ConnLogged(k.(g := k.g.(links := k.g.links[i := Send(l, false)])), n, kafka)
  {
    assert LinkLogged(k.g.links[i], k.socks[i], kafka);
  }

  lemma ExecuteLogged(k: Conn, n: nat, i: nat, reply: Reply, kafka: seq<Op>)
    requires ConnLogged(k, n, kafka) && i <= n && k.socks[i].wire != []
    ensures InLog([k.socks[i].wire[0]], kafka)
    ensures ConnLogged(k.(socks := k.socks[i := Socket(k.socks[i].wire[1..], k.socks[i].rsps + [reply])]), n, kafka)
  {
    assert LinkLogged(k.g.links[i], k.socks[i], kafka);
  }

  lemma ReceiveLogged(k: Conn, n: nat, i: nat, msg: Option<Reply>, socks: seq<Socket>, kafka: seq<Op>)
    requires n >= 1 && ConnLogged(k, n, kafka) && i <= n && Recv(k.g, i, msg).Ok?
    requires |socks| == n + 1 && forall j :: 0 <= j <= n ==> socks[j].wire == k.socks[j].wire
    ensures ConnLogged(k.(g := Recv(k.g, i, msg).group, socks := socks), n, kafka)
  {
    assert LinkLogged(k.g.links[i], k.socks[i], kafka);
    if i < n {
      assert LinkLogged(k.g.links[i + 1], k.socks[i + 1], kafka);
    }
    var links := Recv(k.g, i, msg).group.links;
    assert |links| == n + 1;
    forall j | 0 <= j <= n
      ensures LinkLogged(links[j], socks[j], kafka)
    {
      assert LinkLogged(k.g.links[j], k.socks[j], kafka);
    }
  }

  // ---------------------------------------------------------------- the system

  lemma PickLogged(s: System, c: nat)
    requires AllLogged(s) && c < |s.conns|
    ensures Shaped(s) && ConnLogged(s.conns[c], s.n, s.kafka) && ShapedConn(s.conns[c], s.n)
  {}

  /** A step of client `c` that asks for nothing. */
  lemma QuietLogged(s: System, t: System, c: nat, k: Conn)
    requires AllLogged(s) && Shaped(t) && c < |s.conns|
    requires t.conns == s.conns[c := k] && t.kafka == s.kafka && t.n == s.n
    requires k.admitted == s.conns[c].admitted && ConnLogged(k, s.n, s.kafka) && DataletsLogged(t.datalets, t.kafka)
    ensures AllLogged(t)
  {
    hide ConnLogged, Writes, DataletsLogged, Numbered;
    forall d: nat
      ensures Writes(t.kafka, d) == Writes(Admitted(t.conns, d), d)
    {
      assert Writes(s.kafka, d) == Writes(Admitted(s.conns, d), d);
      assert Admitted(t.conns, d) == Admitted(s.conns, d);
    }
  }

  lemma AcceptLogged(s: System, g: Group)
    requires AllLogged(s) && Enabled(s, Accept(g))
    ensures AllLogged(Next(s, Accept(g)))
  {
    hide Writes, DataletsLogged;
    NextShaped(s, Accept(g));
    var t := Next(s, Accept(g));
    assert ConnLogged(t.conns[|s.conns|], s.n, s.kafka);
    forall d: nat
      ensures Writes(t.kafka, d) == Writes(Admitted(t.conns, d), d)
    {
      assert Writes(s.kafka, d) == Writes(Admitted(s.conns, d), d);
    }
  }

  lemma DataletsMore(datalets: seq<Datalet>, kafka: seq<Op>, kafka': seq<Op>)
    requires DataletsLogged(datalets, kafka) && kafka <= kafka'
    ensures DataletsLogged(datalets, kafka')
  {
    hide Ops;
    assert forall x :: x in kafka ==> x in kafka';
  }

  lemma RequestLogged(s: System, c: nat, cmd: Cmd)
    requires AllLogged(s) && Enabled(s, Request(c, cmd))
    ensures AllLogged(Next(s, Request(c, cmd)))
  {
    hide ConnLogged, Journaled, DataletsLogged, Admit;
    PickLogged(s, c);
    NextShaped(s, Request(c, cmd));
    var k, t := s.conns[c], Next(s, Request(c, cmd));
    var op := Op(c, |k.admitted|, cmd);
    AskLogged(k, s.n, op, s.kafka);
    DataletsMore(s.datalets, s.kafka, t.kafka);
    JournaledAfter(s.kafka, s.conns, c, t.conns[c], op);
    forall d | 0 <= d < |s.conns|
      ensures ConnLogged(t.conns[d], s.n, t.kafka)
    {
      if d != c {
        PickLogged(s, d);
        ConnMore(s.conns[d], s.n, s.kafka, t.kafka);
      }
    }
  }

  lemma ExecutedLogged(s: System, c: nat, i: nat)
    requires AllLogged(s) && Enabled(s, Execute(c, i))
    ensures AllLogged(Next(s, Execute(c, i)))
  {
    hide ConnLogged, Journaled, Ops;
    PickLogged(s, c);
    NextShaped(s, Execute(c, i));
    var k, t := s.conns[c], Next(s, Execute(c, i));
    var op := k.socks[i].wire[0];
    var reply := Answer(s.datalets[i].kv, op.cmd);
    ExecuteLogged(k, s.n, i, reply, s.kafka);
    OpsStep(s.datalets[i].log, Entry(op, reply));
    assert [op][0] == op;
    assert DataletsLogged(t.datalets, t.kafka);
    QuietLogged(s, t, c, t.conns[c]);
  }

  lemma MovedLogged(s: System, step: Step)
    requires AllLogged(s) && Enabled(s, step)
    requires step.SendTo? || step.SendFails? || step.Receive? || step.ReceiveFails?
    ensures AllLogged(Next(s, step))
  {
    hide ConnLogged, Journaled, DataletsLogged, Recv, Send;
    var c, i := step.c, step.i;
    PickLogged(s, c);
    NextShaped(s, step);
    var k, t := s.conns[c], Next(s, step);
    if step.SendTo? || step.SendFails? {
      SendLogged(k, s.n, i, s.kafka);
    } else {
      var msg := if step.Receive? then Some(k.socks[i].rsps[0]) else None;
      if Recv(k.g, i, msg).Ok? {
        ReceiveLogged(k, s.n, i, msg, t.conns[c].socks, s.kafka);
      }
    }
    QuietLogged(s, t, c, t.conns[c]);
  }

  lemma AnsweredLogged(s: System, step: Step)
    requires AllLogged(s) && Enabled(s, step)
    requires step.Respond? || step.RespondFails? || step.Hangup?
    ensures AllLogged(Next(s, step))
  {
    hide Journaled, DataletsLogged, LinkLogged;
    PickLogged(s, step.c);
    NextShaped(s, step);
    QuietLogged(s, Next(s, step), step.c, Next(s, step).conns[step.c]);
  }

  lemma LoggedStep(s: System, step: Step)
    requires AllLogged(s) && Enabled(s, step)
    ensures AllLogged(Next(s, step))
  {
    match step
    case Accept(g) => AcceptLogged(s, g);
    case Request(c, cmd) => RequestLogged(s, c, cmd);
    case Execute(c, i) => ExecutedLogged(s, c, i);
    case Respond(_) => AnsweredLogged(s, step);
    case RespondFails(_) => AnsweredLogged(s, step);
    case Hangup(_) => AnsweredLogged(s, step);
    case _ => MovedLogged(s, step);
  }

  lemma {:induction false} RunLogged(s: System, steps: seq<Step>)
    requires Init(s) && Run(s, steps)
    ensures AllLogged(Final(s, steps))
  {
    if steps != [] {
      hide Enabled, Next, AllLogged;
      var init := steps[..|steps| - 1];
      RunLogged(s, init);
      LoggedStep(Final(s, init), steps[|steps| - 1]);
    }
  }

  // ---------------------------------------------------------------- results

  /** Client by client, the log holds exactly the writes that were asked for, in order, in every run. */
  lemma LogExact(s: System, steps: seq<Step>, c: nat)
    requires Init(s) && Run(s, steps) && c < |Final(s, steps).conns|
    ensures var f := Final(s, steps);
      var a := f.conns[c].admitted;
      && Writes(f.kafka, c) == Writes(a, c)
      && forall j :: 0 <= j < |a| && a[j].cmd.Set? ==> a[j] in f.kafka
  {
    hide Run, Final, Writes, ConnLogged;
    RunLogged(s, steps);
    var f := Final(s, steps);
    var a := f.conns[c].admitted;
    assert Writes(f.kafka, c) == Writes(Admitted(f.conns, c), c);
    forall j | 0 <= j < |a| && a[j].cmd.Set?
      ensures a[j] in f.kafka
    {
      InWrites(a, c, a[j]);
      InWrites(f.kafka, c, a[j]);
    }
  }

  /** The request is queued or sent at a link, on a wire, or executed by a datalet. */
  ghost predicate Out(s: System, op: Op) {
    || (exists i :: 0 <= i < |s.datalets| && op in Ops(s.datalets[i].log))
    || (exists c, i :: 0 <= c < |s.conns| && 0 <= i < |s.conns[c].g.links| && i < |s.conns[c].socks| &&
          OutAt(s.conns[c].g.links[i], s.conns[c].socks[i], op))
  }

  ghost predicate OutAt(l: Link, sock: Socket, op: Op) {
    op in l.imsg || op in l.omsg || op in sock.wire
  }

  /** No write is queued, sent or executed anywhere, in any run, without being in the log. */
  lemma JournaledFirst(s: System, steps: seq<Step>, op: Op)
    requires Init(s) && Run(s, steps) && op.cmd.Set? && Out(Final(s, steps), op)
    ensures op in Final(s, steps).kafka
  {
    hide Run, Final, Ops, Journaled;
    RunLogged(s, steps);
    var f := Final(s, steps);
    if c, i :| 0 <= c < |f.conns| && 0 <= i < |f.conns[c].g.links| && i < |f.conns[c].socks| &&
               OutAt(f.conns[c].g.links[i], f.conns[c].socks[i], op) {
      PickLogged(f, c);
      assert LinkLogged(f.conns[c].g.links[i], f.conns[c].socks[i], f.kafka);
    }
  }

  /** The write that a read has made vanish from the chain is still in the log. */
  lemma LostWriteLogged(n: nat, c: nat, key: Key, val: Val, other: Key, i: nat) returns (s: System, steps: seq<Step>)
    requires i < n
    ensures Init(s) && s.n == n && Run(s, steps)
    ensures var f := Final(s, steps);
      var op, get := Op(c, 0, Set(key, val)), Op(c, 1, Get(other));
      && |f.datalets| == n + 1 && c < |f.conns| && op in f.kafka
      && Lost(f.conns[c], op, get, if i == 0 then [Stored] else [])
      && forall j :: i < j <= n ==> op !in Ops(f.datalets[j].log)
  {
    s, steps := ReadLosesWrite(n, c, key, val, other, i);
    LogExact(s, steps, c);
    hide Run, Final, Flight, Init, Working;
    assert Final(s, steps).conns[c].admitted[0] == Op(c, 0, Set(key, val));
  }
}
