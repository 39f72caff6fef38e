/** What holds in every run, disciplined or not, with failing sockets: no wakeup is lost. */
module ChainLiveness {
  import opened KeyValue
  import opened Chain
  import opened Wrappers

  /** Subscribed to writability with something to send, and to readability with something to be told. */
  ghost predicate AwakeLink(l: Link) {
    !l.error ==> (l.imsg != [] ==> l.wantOut) && (l.omsg != [] ==> l.wantIn)
  }

  ghost predicate AwakeClient(l: ClientLink) {
    !l.error && l.imsg != [] ==> l.wantOut
  }

  ghost predicate Awake(g: Group) {
    AwakeClient(g.client) && forall i :: 0 <= i < |g.links| ==> AwakeLink(g.links[i])
  }

  lemma AwakeAfter(g: Group, links: seq<Link>, i: nat)
    requires Awake(g) && i < |g.links| == |links| && AwakeLink(links[i])
    requires forall j :: 0 <= j < |links| && j != i ==>
               && links[j].imsg == g.links[j].imsg && links[j].wantOut == g.links[j].wantOut
               && links[j].omsg == g.links[j].omsg && links[j].wantIn == g.links[j].wantIn
               && links[j].error == g.links[j].error
    ensures Awake(g.(links := links))
  {
    forall j | 0 <= j < |links| ensures AwakeLink(links[j]) {
      assert AwakeLink(g.links[j]);
    }
  }

  lemma AdmitAwake(g: Group, op: Op)
    requires Awake(g) && |g.links| >= 2
    ensures Awake(Admit(g, op))
  {
    var i := if op.cmd.Set? then 0 else |g.links| - 1;
    assert AwakeLink(g.links[i]);
    AwakeAfter(g, Admit(g, op).links, i);
  }

  lemma RecvAwake(g: Group, i: nat, msg: Option<Reply>)
    requires Awake(g) && i < |g.links| && |g.links| >= 2 && Recv(g, i, msg).Ok?
    ensures |Recv(g, i, msg).group.links| == |g.links| && Awake(Recv(g, i, msg).group)
  {
    var h := Recv(g, i, msg).group;
    assert |h.links| == |g.links|;
    forall j | 0 <= j < |h.links| ensures AwakeLink(h.links[j]) {
      assert AwakeLink(g.links[j]);
    }
  }

  ghost predicate ConnAlways(k: Conn) {
    |k.g.links| >= 2 && Awake(k.g)
  }

  ghost predicate Always(s: System) {
    && Shaped(s)
    && forall c :: 0 <= c < |s.conns| ==> ConnAlways(s.conns[c])
  }

  lemma SendAwake(k: Conn, i: nat, written: bool)
    requires ConnAlways(k) && i < |k.g.links|
    ensures ConnAlways(k.(g := k.g.(links := k.g.links[i := Send(k.g.links[i], written)])))
  {
    assert AwakeLink(k.g.links[i]);
    AwakeAfter(k.g, k.g.links[i := Send(k.g.links[i], written)], i);
  }

  lemma AlwaysAfter(s: System, c: nat, k: Conn)
    requires Always(s) && c < |s.conns| && ShapedConn(k, s.n) && ConnAlways(k)
    ensures Always(WithConn(s, c, k))
  {
    hide ConnAlways;
  }

  lemma Picked(s: System, c: nat)
    requires Always(s) && c < |s.conns|
    ensures Shaped(s) && ConnAlways(s.conns[c]) && ShapedConn(s.conns[c], s.n)
  {
    hide ConnAlways;
  }

  lemma AlwaysStep(s: System, step: Step)
    requires Always(s) && Enabled(s, step)
    ensures Always(Next(s, step))
  {
    var t := Next(s, step);
    hide ConnAlways, Always;
    match step
    case Accept(g) => AcceptAlways(s, g);
    case Request(c, cmd) => RequestAlways(s, c, cmd);
    case SendTo(c, i) => SendAlways(s, c, i, true);
    case Execute(c, i) => ExecuteAlways(s, c, i);
    case Receive(c, i) => ReceiveAlways(s, c, i);
    case Respond(c) => ClientAlways(s, c, t);
    case SendFails(c, i) => SendAlways(s, c, i, false);
    case ReceiveFails(c, i) => ReceiveAlways(s, c, i);
    case RespondFails(c) => ClientAlways(s, c, t);
    case Hangup(c) => ClientAlways(s, c, t);
  }

  lemma AcceptAlways(s: System, g: Group)
    requires Always(s) && Enabled(s, Accept(g))
    ensures Always(Next(s, Accept(g)))
  {
    assert ConnAlways(Conn(g, Idle(s.n), [], []));
    hide ConnAlways;
  }

  lemma RequestAlways(s: System, c: nat, cmd: Cmd)
    requires Always(s) && Enabled(s, Request(c, cmd))
    ensures Always(Next(s, Request(c, cmd)))
  {
    hide Always, Awake;
    Picked(s, c);
    var k := s.conns[c];
    var op := Op(c, |k.admitted|, cmd);
    AdmitAwake(k.g, op);
    AlwaysAfter(s, c, k.(g := Admit(k.g, op), admitted := k.admitted + [op]));
    hide ConnAlways;
    SameConns(WithConn(s, c, k.(g := Admit(k.g, op), admitted := k.admitted + [op])), Next(s, Request(c, cmd)));
  }

  lemma SameConns(s: System, t: System)
    requires Always(s) && t.conns == s.conns && t.n == s.n && |t.datalets| == |s.datalets|
    ensures Always(t)
  {
    hide ConnAlways;
  }

  lemma SendAlways(s: System, c: nat, i: nat, written: bool)
    requires Always(s) && Live(s, c, i) && !s.aborted
    ensures Always(Next(s, if written then SendTo(c, i) else SendFails(c, i)))
  {
    hide Always;
    Picked(s, c);
    SendAwake(s.conns[c], i, written);
    hide ConnAlways, Awake;
    var k := s.conns[c];
    var t := Next(s, if written then SendTo(c, i) else SendFails(c, i));
    assert t.conns[c].g == k.g.(links := k.g.links[i := Send(k.g.links[i], written)]);
    SameView(t.conns[c], k.(g := k.g.(links := k.g.links[i := Send(k.g.links[i], written)])));
    AlwaysAfter(s, c, t.conns[c]);
  }

  lemma SameView(a: Conn, b: Conn)
    requires ConnAlways(b) && a.g == b.g && a.admitted == b.admitted
    ensures ConnAlways(a)
  {}

  lemma ExecuteAlways(s: System, c: nat, i: nat)
    requires Always(s) && Enabled(s, Execute(c, i))
    ensures Always(Next(s, Execute(c, i)))
  {
    hide Always, ConnAlways;
    Picked(s, c);
    var t := Next(s, Execute(c, i));
    SameView(t.conns[c], s.conns[c]);
    AlwaysAfter(s, c, t.conns[c]);
    SameConns(WithConn(s, c, t.conns[c]), t);
  }

  lemma ReceiveAlways(s: System, c: nat, i: nat)
    requires Always(s) && Live(s, c, i) && !s.aborted
    ensures Enabled(s, Receive(c, i)) ==> Always(Next(s, Receive(c, i)))
    ensures Always(Next(s, ReceiveFails(c, i)))
  {
    hide Always, Recv;
    Picked(s, c);
    var k := s.conns[c];
    Received(s, c, i, None, ReceiveFails(c, i));
    if k.socks[i].rsps != [] {
      Received(s, c, i, Some(k.socks[i].rsps[0]), Receive(c, i));
    }
  }

  lemma Received(s: System, c: nat, i: nat, msg: Option<Reply>, step: Step)
    requires Always(s) && Live(s, c, i) && Enabled(s, step)
    requires step == if msg.None? then ReceiveFails(c, i) else Receive(c, i)
    requires msg.Some? ==> msg.value == s.conns[c].socks[i].rsps[0]
    ensures Always(Next(s, step))
  {
    hide Always, Recv, Awake;
    Picked(s, c);
    var k := s.conns[c];
    var out := Recv(k.g, i, msg);
    var t := Next(s, step);
    if out.Ok? {
      RecvAwake(k.g, i, msg);
      AlwaysAfter(s, c, t.conns[c]);
    } else {
      SameConns(s, t);
    }
  }

  lemma ClientAlways(s: System, c: nat, t: System)
    requires Always(s) && LiveClient(s, c) && !s.aborted
    requires t == Next(s, Respond(c)) || t == Next(s, RespondFails(c)) || t == Next(s, Hangup(c))
    ensures Always(t)
  {
    hide Always;
    Picked(s, c);
    var k := t.conns[c];
    assert k.g.links == s.conns[c].g.links && k.admitted == s.conns[c].admitted;
    assert AwakeClient(k.g.client);
    assert ConnAlways(k);
    hide ConnAlways;
    AlwaysAfter(s, c, k);
    SameConns(WithConn(s, c, k), t);
  }

  lemma {:induction false} RunAlways(s: System, steps: seq<Step>)
    requires Init(s) && Run(s, steps)
    ensures Always(Final(s, steps))
  {
    if steps != [] {
      var init := steps[..|steps| - 1];
      RunAlways(s, init);
      AlwaysStep(Final(s, init), steps[|steps| - 1]);
    }
    hide Enabled, ConnAlways, Next;
  }

  /**
   * No lost wakeup: a working link with something to send is subscribed to writability, and one
   * that waits for a response to readability.
   */
  lemma NoLostWakeup(s: System, steps: seq<Step>, c: nat, i: nat)
    requires Init(s) && Run(s, steps)
    requires c < |Final(s, steps).conns| && i < |Final(s, steps).conns[c].g.links|
    ensures var g := Final(s, steps).conns[c].g;
      && (!g.links[i].error && g.links[i].imsg != [] ==> g.links[i].wantOut)
      && (!g.links[i].error && g.links[i].omsg != [] ==> g.links[i].wantIn)
      && (!g.client.error && g.client.imsg != [] ==> g.client.wantOut)
  {
    hide Final, Run;
    RunAlways(s, steps);
    Picked(Final(s, steps), c);
    assert AwakeLink(Final(s, steps).conns[c].g.links[i]);
  }
}
