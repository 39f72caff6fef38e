/** Safety of whole runs: conservation, linearizability, convergence and the request log. */
module ChainSafety {
  import opened KeyValue
  import opened Chain
  import opened ChainConservation
  import opened ChainInvariant
  import opened Wrappers

  /**
   * The discipline the per-connection flags demand: a client starts a read only when all its
   * requests are answered. It may write whenever it likes. Sockets work.
   */
  ghost predicate Disciplined(s: System, step: Step) {
    match step
    case Request(c, cmd) =>
      c < |s.conns| && (cmd.Get? ==> |s.conns[c].replied| == |s.conns[c].admitted|)
    case SendFails(_, _) => false
    case ReceiveFails(_, _) => false
    case RespondFails(_) => false
    case Hangup(_) => false
    case _ => true
  }

  ghost predicate DisciplinedRun(s: System, steps: seq<Step>) {
    Run(s, steps) && (steps == [] || (
      var init := steps[..|steps| - 1];
      DisciplinedRun(s, init) && Disciplined(Final(s, init), steps[|steps| - 1])))
  }

  /** Every reply in the log is what a single map would have answered at that point. */
  ghost predicate Legal(log: seq<Entry>) {
    forall j :: 0 <= j < |log| ==> log[j].reply == Answer(Replay(Ops(log[..j])), log[j].op.cmd)
  }

  ghost predicate Distinct(log: seq<Entry>) {
    forall i, j :: 0 <= i < j < |log| ==> log[i].op != log[j].op
  }

  ghost predicate Precedes(log: seq<Entry>, a: Op, b: Op) {
    forall p, q :: 0 <= p < |log| && 0 <= q < |log| && log[p].op == a && log[q].op == b ==> p < q
  }

  /** A request answered before another one was made takes effect before it. */
  ghost predicate RealTime(h: seq<Event>, log: seq<Entry>) {
    forall i, j :: 0 <= i < j < |h| && h[i].Replied? && h[j].Invoked? ==> Precedes(log, h[i].op, h[j].op)
  }

  ghost predicate Complete(h: seq<Event>, log: seq<Entry>) {
    forall i :: 0 <= i < |h| && h[i].Replied? ==> Entry(h[i].op, h[i].reply) in log
  }

  ghost predicate OnlyInvoked(h: seq<Event>, log: seq<Entry>) {
    forall j :: 0 <= j < |log| ==> Invoked(log[j].op) in h
  }

  /** `log` is a sequential execution that explains everything the clients have observed. */
  ghost predicate Linearization(h: seq<Event>, log: seq<Entry>) {
    && Legal(log)
    && Distinct(log)
    && OnlyInvoked(h, log)
    && Complete(h, log)
    && RealTime(h, log)
  }

  // ---------------------------------------------------------------- the invariant

  function Tail(s: System): seq<Entry>
    requires |s.datalets| == s.n + 1
  {
    s.datalets[s.n].log
  }

  ghost predicate DataletInv(d: Datalet) {
    d.kv == Replay(Ops(d.log)) && Legal(d.log)
  }

  ghost predicate Datalets(datalets: seq<Datalet>) {
    forall i :: 0 <= i < |datalets| ==> DataletInv(datalets[i])
  }

  ghost predicate Conns(conns: seq<Conn>, datalets: seq<Datalet>) {
    forall c :: 0 <= c < |conns| ==> ConnInv(conns[c], c, datalets)
  }

  /** No datalet has executed a request of a client that is not connected. */
  ghost predicate NoStrangers(conns: nat, datalets: seq<Datalet>) {
    forall i, c: nat :: 0 <= i < |datalets| && conns <= c ==> From(Ops(datalets[i].log), c) == []
  }

  function Admitted(conns: seq<Conn>, c: nat): seq<Op> {
    if c < |conns| then conns[c].admitted else []
  }

  /** The request log holds every admitted write, in each client's order. */
  ghost predicate Journaled(kafka: seq<Op>, conns: seq<Conn>) {
    forall c: nat :: Writes(kafka, c) == Writes(Admitted(conns, c), c)
  }

  ghost predicate Known(h: seq<Event>, conns: seq<Conn>) {
    forall i :: 0 <= i < |h| && h[i].Invoked? ==> h[i].op.seqno < |Admitted(conns, h[i].op.client)|
  }

  ghost predicate AllInvoked(h: seq<Event>, conns: seq<Conn>) {
    forall c, j :: 0 <= c < |conns| && 0 <= j < |conns[c].admitted| ==> Invoked(conns[c].admitted[j]) in h
  }

  ghost predicate Inv(s: System) {
    && Shaped(s)
    && !s.aborted
    && Datalets(s.datalets)
    && Conns(s.conns, s.datalets)
    && NoStrangers(|s.conns|, s.datalets)
    && Journaled(s.kafka, s.conns)
    && Known(s.history, s.conns)
    && AllInvoked(s.history, s.conns)
    && Linearization(s.history, Tail(s))
  }

  lemma InitInv(s: System)
    requires Init(s)
    ensures Inv(s)
  {}

  // ---------------------------------------------------------------- the conns of a step

  lemma ConnsAfter(conns: seq<Conn>, datalets: seq<Datalet>, c: nat, k: Conn)
    requires Conns(conns, datalets) && c < |conns| && ConnInv(k, c, datalets)
    ensures Conns(conns[c := k], datalets)
  {
    hide ConnInv;
  }

  lemma ConnShaped(s: System, c: nat)
    requires Conns(s.conns, s.datalets) && c < |s.conns|
    ensures ConnInv(s.conns[c], c, s.datalets)
  {
    hide ConnInv;
  }

  lemma ShapeOf(k: Conn, c: nat, datalets: seq<Datalet>)
    requires ConnInv(k, c, datalets)
    ensures |datalets| >= 2 && ShapedConn(k, |datalets| - 1)
  {}

  /** A step that only changes one conn, without admitting or executing anything. */
  lemma QuietStep(s: System, c: nat, k: Conn)
    requires Inv(s) && c < |s.conns| && ConnInv(k, c, s.datalets)
    requires k.admitted == s.conns[c].admitted
    ensures Inv(WithConn(s, c, k))
  {
    hide ConnInv, Linearization, Datalets, NoStrangers, Writes, Journaled, Known, AllInvoked, Conns;
    var s' := WithConn(s, c, k);
    ShapeOf(k, c, s.datalets);
    ConnsAfter(s.conns, s.datalets, c, k);
    SameRequests(s.conns, s'.conns, s.kafka, s.history);
  }

  lemma SameRequests(conns: seq<Conn>, conns': seq<Conn>, kafka: seq<Op>, h: seq<Event>)
    requires Journaled(kafka, conns) && Known(h, conns) && AllInvoked(h, conns)
    requires |conns| == |conns'| && forall c :: 0 <= c < |conns| ==> conns'[c].admitted == conns[c].admitted
    ensures Journaled(kafka, conns') && Known(h, conns') && AllInvoked(h, conns')
  {
    hide Writes;
    assert forall d: nat :: Admitted(conns', d) == Admitted(conns, d);
  }

  lemma SendStep(s: System, c: nat, i: nat)
    requires Inv(s) && Enabled(s, SendTo(c, i))
    ensures Inv(Next(s, SendTo(c, i)))
  {
    hide ConnInv, Linearization, Datalets, NoStrangers, Journaled, Known, AllInvoked;
    ConnShaped(s, c);
    RequestSent(s.conns[c], c, s.datalets, i);
    QuietStep(s, c, Sent(s.conns[c], i));
  }

  lemma ReceiveStep(s: System, c: nat, i: nat)
    requires Inv(s) && Enabled(s, Receive(c, i))
    ensures Inv(Next(s, Receive(c, i)))
  {
    hide ConnInv, Linearization, Datalets, NoStrangers, Journaled, Known, AllInvoked, Recv;
    var k := s.conns[c];
    ConnShaped(s, c);
    if i < s.n {
      ResponseForwarded(k, c, s.datalets, i);
    } else {
      ResponseDelivered(k, c, s.datalets, i);
    }
    QuietStep(s, c, k.(g := Recv(k.g, i, Some(k.socks[i].rsps[0])).group, socks := Read(k.socks, i)));
  }

  // ---------------------------------------------------------------- a client asks

  lemma JournaledAfter(kafka: seq<Op>, conns: seq<Conn>, c: nat, k: Conn, op: Op)
    requires Journaled(kafka, conns) && c < |conns| && op.client == c
    requires k.admitted == conns[c].admitted + [op]
    ensures Journaled(if op.cmd.Set? then kafka + [op] else kafka, conns[c := k])
  {
    hide Writes;
    var kafka' := if op.cmd.Set? then kafka + [op] else kafka;
    forall d: nat ensures Writes(kafka', d) == Writes(Admitted(conns[c := k], d), d) {
      WritesStep(kafka, op, d);
      WritesStep(conns[c].admitted, op, d);
      assert Writes(kafka, d) == Writes(Admitted(conns, d), d);
    }
  }

  lemma KnownAfter(h: seq<Event>, conns: seq<Conn>, c: nat, k: Conn, op: Op)
    requires Known(h, conns) && c < |conns| && op == Op(c, |conns[c].admitted|, op.cmd)
    requires k.admitted == conns[c].admitted + [op]
    requires AllInvoked(h, conns)
    ensures Known(h + [Invoked(op)], conns[c := k])
    ensures AllInvoked(h + [Invoked(op)], conns[c := k])
  {
    var h', conns' := h + [Invoked(op)], conns[c := k];
    assert forall d: nat :: |Admitted(conns, d)| <= |Admitted(conns', d)|;
    assert forall x :: x in h ==> x in h';
  }

  lemma LinearizationInvoked(h: seq<Event>, log: seq<Entry>, conns: seq<Conn>, op: Op)
    requires Linearization(h, log) && Known(h, conns)
    requires op.seqno == |Admitted(conns, op.client)|
    ensures Linearization(h + [Invoked(op)], log)
  {
    hide Legal, Distinct;
    var h' := h + [Invoked(op)];
    assert forall x :: x in h ==> x in h';
    forall j | 0 <= j < |log| ensures log[j].op != op {
      assert Invoked(log[j].op) in h;
    }
    forall i, j | 0 <= i < j < |h'| && h'[i].Replied? && h'[j].Invoked?
      ensures Precedes(log, h'[i].op, h'[j].op)
    {
      if j < |h| {
        assert Precedes(log, h[i].op, h[j].op);
      }
    }
    assert RealTime(h', log);
  }

  lemma AdmitShaped(g: Group, op: Op)
    requires |g.links| >= 2
    ensures |Admit(g, op).links| == |g.links|
  {}

  lemma RequestStep(s: System, c: nat, cmd: Cmd)
    requires Inv(s) && Enabled(s, Request(c, cmd)) && Disciplined(s, Request(c, cmd))
    ensures Inv(Next(s, Request(c, cmd)))
  {
    hide ConnInv, Linearization, Datalets, NoStrangers, Journaled, Known, Conns, AllInvoked, Admit;
    var k := s.conns[c];
    var op := Op(c, |k.admitted|, cmd);
    var k' := Requested(k, op);
    ConnShaped(s, c);
    if cmd.Get? {
      ReadRequested(k, c, s.datalets, op);
    } else {
      WriteRequested(k, c, s.datalets, op);
    }
    ConnsAfter(s.conns, s.datalets, c, k');
    AdmitShaped(k.g, op);
    assert ShapedConn(k', s.n);
    JournaledAfter(s.kafka, s.conns, c, k', op);
    KnownAfter(s.history, s.conns, c, k', op);
    LinearizationInvoked(s.history, Tail(s), s.conns, op);
  }

  // ---------------------------------------------------------------- a datalet executes

  lemma LegalAfter(d: Datalet, op: Op)
    requires DataletInv(d)
    ensures DataletInv(Datalet(Store(d.kv, op.cmd), d.log + [Entry(op, Answer(d.kv, op.cmd))]))
  {
    hide Replay, Ops;
    var e := Entry(op, Answer(d.kv, op.cmd));
    var log := d.log + [e];
    OpsStep(d.log, e);
    ReplayStep(Ops(d.log), op);
    forall j | 0 <= j < |log| ensures log[j].reply == Answer(Replay(Ops(log[..j])), log[j].op.cmd) {
      if j < |d.log| {
        assert log[..j] == d.log[..j];
      } else {
        assert log[..j] == d.log;
      }
    }
  }

  lemma DataletsAfter(datalets: seq<Datalet>, i: nat, op: Op)
    requires Datalets(datalets) && i < |datalets|
    ensures Datalets(Logged(datalets, i, op))
  {
    hide DataletInv;
    LegalAfter(datalets[i], op);
  }

  lemma StrangersAfter(conns: nat, datalets: seq<Datalet>, i: nat, op: Op)
    requires NoStrangers(conns, datalets) && i < |datalets| && op.client < conns
    ensures NoStrangers(conns, Logged(datalets, i, op))
  {
    hide From, Ops;
    var after := Logged(datalets, i, op);
    var e := Entry(op, Answer(datalets[i].kv, op.cmd));
    forall j, c: nat | 0 <= j < |after| && conns <= c ensures From(Ops(after[j].log), c) == [] {
      assert From(Ops(datalets[j].log), c) == [];
      OpsStep(datalets[i].log, e);
      FromStep(Ops(datalets[i].log), op, c);
    }
  }

  lemma ConnsExecuted(conns: seq<Conn>, datalets: seq<Datalet>, c: nat, i: nat)
    requires Conns(conns, datalets) && c < |conns| && i < |datalets|
    requires ShapedConn(conns[c], |datalets| - 1) && conns[c].socks[i].wire != []
    ensures var op := conns[c].socks[i].wire[0];
      var k := conns[c].(socks := Executed(conns[c].socks, i, Answer(datalets[i].kv, op.cmd)));
      Conns(conns[c := k], Logged(datalets, i, op)) && op.client == c && op in conns[c].admitted
  {
    hide ConnInv, Logged, Executed;
    RequestExecuted(conns[c], c, datalets, i);
    var op := conns[c].socks[i].wire[0];
    var k := conns[c].(socks := Executed(conns[c].socks, i, Answer(datalets[i].kv, op.cmd)));
    var conns' := conns[c := k];
    forall d | 0 <= d < |conns| ensures ConnInv(conns'[d], d, Logged(datalets, i, op)) {
      if d != c {
        OthersExecuted(conns[d], d, datalets, i, op);
      }
    }
  }

  /** The tail has not executed the next request of a client before. */
  lemma NotYetExecuted(k: Conn, c: nat, datalets: seq<Datalet>, t: nat)
    requires ConnInv(k, c, datalets) && t == |datalets| - 1 && k.socks[t].wire != []
    ensures forall j :: 0 <= j < |datalets[t].log| ==> datalets[t].log[j].op != k.socks[t].wire[0]
  {
    hide Applied, Recorded, Moded, Healthy, Flight, From, Wired, Conserved, Numbered, Reached;
    var op, log := k.socks[t].wire[0], datalets[t].log;
    var r := |Given(k)| + |k.socks[t].rsps|;
    WireIsNext(k.admitted, |Given(k)|, k.g.links, k.socks, t);
    TailReached(k.g.links, k.socks, |Given(k)|, t);
    Owned(k.admitted, c, r);
    forall j | 0 <= j < |log| ensures log[j].op != op {
      if log[j].op == op {
        assert Ops(log)[j] == op;
        InFrom(Ops(log), c, op);
        var p :| 0 <= p < r && k.admitted[..r][p] == op;
        Owned(k.admitted, c, p);
        assert false;
      }
    }
  }

  lemma LinearizationExecuted(h: seq<Event>, log: seq<Entry>, e: Entry)
    requires Linearization(h, log) && Legal(log + [e])
    requires Invoked(e.op) in h
    requires forall j :: 0 <= j < |log| ==> log[j].op != e.op
    ensures Linearization(h, log + [e])
  {
    hide Legal;
    var log' := log + [e];
    assert forall x :: x in log ==> x in log';
    forall i, j | 0 <= i < j < |h| && h[i].Replied? && h[j].Invoked?
      ensures Precedes(log', h[i].op, h[j].op)
    {
      assert Precedes(log, h[i].op, h[j].op);
      assert Entry(h[i].op, h[i].reply) in log;
    }
    assert RealTime(h, log');
  }

  lemma WasInvoked(h: seq<Event>, conns: seq<Conn>, c: nat, op: Op)
    requires AllInvoked(h, conns) && c < |conns| && op in conns[c].admitted
    ensures Invoked(op) in h
  {
    var j :| 0 <= j < |conns[c].admitted| && conns[c].admitted[j] == op;
  }

  lemma TailExecuted(h: seq<Event>, datalets: seq<Datalet>, i: nat, t: nat, e: Entry)
    requires i < |datalets| && t < |datalets| && DataletInv(datalets[i])
    requires Linearization(h, datalets[t].log) && Invoked(e.op) in h
    requires e.reply == Answer(datalets[i].kv, e.op.cmd)
    requires i == t ==> forall j :: 0 <= j < |datalets[t].log| ==> datalets[t].log[j].op != e.op
    ensures Linearization(h, Logged(datalets, i, e.op)[t].log)
  {
    hide Linearization, Legal, Replay;
    if i == t {
      LegalAfter(datalets[i], e.op);
      LinearizationExecuted(h, datalets[t].log, e);
    }
  }

  lemma DataletPick(datalets: seq<Datalet>, i: nat)
    requires Datalets(datalets) && i < |datalets|
    ensures DataletInv(datalets[i])
  {}

  lemma ExecuteStep(s: System, c: nat, i: nat)
    requires Inv(s) && Enabled(s, Execute(c, i))
    ensures Inv(Next(s, Execute(c, i)))
  {
    hide ConnInv, Datalets, NoStrangers, Conns, Linearization, Journaled, Known, AllInvoked;
    var k := s.conns[c];
    var op := k.socks[i].wire[0];
    var e := Entry(op, Answer(s.datalets[i].kv, op.cmd));
    var s' := Next(s, Execute(c, i));
    ConnsExecuted(s.conns, s.datalets, c, i);
    WasInvoked(s.history, s.conns, c, op);
    DataletPick(s.datalets, i);
    if i == s.n {
      ConnShaped(s, c);
      NotYetExecuted(k, c, s.datalets, i);
    }
    TailExecuted(s.history, s.datalets, i, s.n, e);
    DataletsAfter(s.datalets, i, op);
    StrangersAfter(|s.conns|, s.datalets, i, op);
    SameRequests(s.conns, s'.conns, s.kafka, s.history);
    assert s'.datalets == Logged(s.datalets, i, op);
  }

  // ---------------------------------------------------------------- a client is answered

  lemma LinearizationReplied(h: seq<Event>, log: seq<Entry>, op: Op, r: Reply)
    requires Linearization(h, log) && Entry(op, r) in log
    ensures Linearization(h + [Replied(op, r)], log)
  {
    hide Legal, Distinct, Precedes;
    var h' := h + [Replied(op, r)];
    assert forall x :: x in h ==> x in h';
    assert RealTime(h', log) by {
      forall i, j | 0 <= i < j < |h'| && h'[i].Replied? && h'[j].Invoked?
        ensures Precedes(log, h'[i].op, h'[j].op)
      {
        assert Precedes(log, h[i].op, h[j].op);
      }
    }
  }

  lemma NextReplyRecorded(k: Conn, c: nat, datalets: seq<Datalet>)
    requires ConnInv(k, c, datalets) && k.g.client.imsg != []
    ensures |k.replied| < |k.admitted|
    ensures Entry(k.admitted[|k.replied|], k.g.client.imsg[0]) in datalets[|datalets| - 1].log
  {
    hide Applied, Moded, Healthy, Flight, Wired, Conserved, Numbered, TailApplied;
    assert Given(k)[|k.replied|] == k.g.client.imsg[0];
  }

  lemma KnownReplied(h: seq<Event>, conns: seq<Conn>, e: Event)
    requires Known(h, conns) && AllInvoked(h, conns) && e.Replied?
    ensures Known(h + [e], conns) && AllInvoked(h + [e], conns)
  {
    assert forall x :: x in h ==> x in h + [e];
  }

  lemma RespondStep(s: System, c: nat)
    requires Inv(s) && Enabled(s, Respond(c))
    ensures Inv(Next(s, Respond(c)))
  {
    hide ConnInv, Datalets, NoStrangers, Conns, Linearization, Journaled, Known, AllInvoked;
    var k := s.conns[c];
    ConnShaped(s, c);
    ReplySent(k, c, s.datalets);
    QuietStep(s, c, Responded(k));
    if k.g.client.imsg != [] {
      NextReplyRecorded(k, c, s.datalets);
      LinearizationReplied(s.history, Tail(s), k.admitted[|k.replied|], k.g.client.imsg[0]);
      KnownReplied(s.history, WithConn(s, c, Responded(k)).conns,
                   Replied(k.admitted[|k.replied|], k.g.client.imsg[0]));
    }
  }

  lemma Joined(conns: seq<Conn>, datalets: seq<Datalet>, k: Conn, kafka: seq<Op>, h: seq<Event>)
    requires Conns(conns, datalets) && NoStrangers(|conns|, datalets)
    requires Journaled(kafka, conns) && Known(h, conns) && AllInvoked(h, conns)
    requires ConnInv(k, |conns|, datalets) && k.admitted == []
    ensures var conns' := conns + [k];
      && Conns(conns', datalets) && NoStrangers(|conns'|, datalets)
      && Journaled(kafka, conns') && Known(h, conns') && AllInvoked(h, conns')
  {
    hide ConnInv, From, Writes, Ops;
    assert forall d: nat :: Admitted(conns + [k], d) == Admitted(conns, d);
  }

  lemma AcceptStep(s: System, g: Group)
    requires Inv(s) && Enabled(s, Accept(g))
    ensures Inv(Next(s, Accept(g)))
  {
    hide ConnInv, Datalets, Linearization, Conns, Journaled, Known, AllInvoked, Fresh, From, Ops;
    var k := Conn(g, Idle(s.n), [], []);
    NewClient(s, |s.conns|);
    FreshConn(g, |s.conns|, s.datalets);
    ShapeOf(k, |s.conns|, s.datalets);
    Joined(s.conns, s.datalets, k, s.kafka, s.history);
  }

  lemma NewClient(s: System, c: nat)
    requires NoStrangers(|s.conns|, s.datalets) && c == |s.conns|
    ensures forall i :: 0 <= i < |s.datalets| ==> From(Ops(s.datalets[i].log), c) == []
  {
    hide From, Ops;
  }

  // ---------------------------------------------------------------- whole runs

  lemma StepInv(s: System, step: Step)
    requires Inv(s) && Enabled(s, step) && Disciplined(s, step)
    ensures Inv(Next(s, step))
  {
    hide Inv;
    match step
    case Accept(g) => AcceptStep(s, g);
    case Request(c, cmd) => RequestStep(s, c, cmd);
    case SendTo(c, i) => SendStep(s, c, i);
    case Execute(c, i) => ExecuteStep(s, c, i);
    case Receive(c, i) => ReceiveStep(s, c, i);
    case Respond(c) => RespondStep(s, c);
    case _ =>
  }

  /** Every state of every disciplined run satisfies the invariant; no CHECK ever fails. */
  lemma {:induction false} RunInv(s: System, steps: seq<Step>)
    requires Init(s) && DisciplinedRun(s, steps)
    ensures Inv(Final(s, steps))
  {
    hide Inv, Enabled, Disciplined, Next;
    if steps == [] {
      InitInv(s);
    } else {
      RunInv(s, steps[..|steps| - 1]);
      StepInv(Final(s, steps[..|steps| - 1]), steps[|steps| - 1]);
    }
  }
}
