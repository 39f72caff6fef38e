/**
 * The handlers' own runs. A deployment is the proxy together with the sockets and the datalets
 * behind it; whatever sequence of its methods is called, the handlers have done a run of the step
 * system, so that what holds of every run holds of the objects.
 */
module ProxyRuns {
  import opened KeyValue
  import opened Chain
  import opened ChainSafety
  import opened ChainResponses
  import ChainRuns
  import ChainTheorems
  import opened Proxy
  import opened Buffer
  import Frame
  import opened Wrappers

  // ---------------------------------------------------------------- the groups of a system

  ghost function Groups(conns: seq<Conn>): (r: seq<Group>)
    ensures |r| == |conns| && forall c :: 0 <= c < |r| ==> r[c] == conns[c].g
  {
    seq(|conns|, c requires 0 <= c < |conns| => conns[c].g)
  }

  /** The system is what the steps lead to. */
  ghost predicate Tracks(start: System, steps: seq<Step>, sys: System) {
    Init(start) && Run(start, steps) && Final(start, steps) == sys && AllSteady(sys)
  }

  lemma TracksNext(start: System, steps: seq<Step>, sys: System, step: Step)
    requires Tracks(start, steps, sys) && Enabled(sys, step)
    ensures Shaped(sys) && Tracks(start, steps + [step], Next(sys, step)) && Next(sys, step).n == sys.n
  {
    hide Run, Final, Enabled, Next, Init;
    assert AllSteady(sys);
    ChainRuns.Extend(start, steps, step);
    SteadyStep(sys, step);
    NextShaped(sys, step);
  }

  lemma Accepted(sys: System, g: Group)
    requires AllSteady(sys) && Fresh(g, sys.n)
    ensures Enabled(sys, Accept(g))
    ensures var t := Next(sys, Accept(g)); Groups(t.conns) == Groups(sys.conns) + [g] && t.kafka == sys.kafka
  {
    hide Steady;
  }

  lemma Sent(sys: System, c: nat, i: nat, written: bool)
    requires AllSteady(sys) && c < |sys.conns| && i <= sys.n && i < |sys.conns[c].g.links|
    requires !sys.conns[c].g.links[i].error
    ensures var step := if written then SendTo(c, i) else SendFails(c, i);
      && Enabled(sys, step) && Next(sys, step).kafka == sys.kafka
      && Groups(Next(sys, step).conns)
         == Refreshed(Groups(sys.conns), c, i, Send(sys.conns[c].g.links[i], written))
  {
    Picked(sys, c);
    hide Steady, Send;
  }

  lemma Answered(sys: System, c: nat, written: bool)
    requires AllSteady(sys) && c < |sys.conns| && !sys.conns[c].g.client.error
    ensures var step := if written then Respond(c) else RespondFails(c);
      && Enabled(sys, step) && Next(sys, step).kafka == sys.kafka
      && Groups(Next(sys, step).conns)
         == RefreshedClient(Groups(sys.conns), c, SendReply(sys.conns[c].g.client, written))
  {
    Picked(sys, c);
    hide Steady, SendReply;
  }

  lemma HungUp(sys: System, c: nat)
    requires AllSteady(sys) && c < |sys.conns| && !sys.conns[c].g.client.error
    ensures Enabled(sys, Hangup(c)) && Next(sys, Hangup(c)).kafka == sys.kafka
    ensures Groups(Next(sys, Hangup(c)).conns)
         == RefreshedClient(Groups(sys.conns), c, FailClient(sys.conns[c].g.client))
  {
    Picked(sys, c);
    hide Steady;
  }

  /** What a read of link `i` finds: a failure, or the next response on its socket. */
  ghost predicate Finds(sys: System, c: nat, i: nat, msg: Option<Reply>) {
    && c < |sys.conns| && i <= sys.n && i < |sys.conns[c].g.links| && i < |sys.conns[c].socks|
    && !sys.conns[c].g.links[i].error
    && (msg.Some? ==> sys.conns[c].socks[i].rsps != [] && msg.value == sys.conns[c].socks[i].rsps[0])
  }

  /** No check fails: every response finds the request it answers. */
  lemma Received(sys: System, c: nat, i: nat, msg: Option<Reply>)
    requires AllSteady(sys) && Finds(sys, c, i, msg)
    ensures var step := if msg.Some? then Receive(c, i) else ReceiveFails(c, i);
      && c < |sys.conns| && |sys.conns[c].g.links| >= 2
      && Enabled(sys, step) && Recv(sys.conns[c].g, i, msg).Ok? && Next(sys, step).kafka == sys.kafka
      && Groups(Next(sys, step).conns) == Groups(sys.conns)[c := Recv(sys.conns[c].g, i, msg).group]
  {
    Picked(sys, c);
    match msg {
      case Some(r) => MeetsFate(sys.conns[c], sys.n, i, r);
      case None => SteadyFail(sys.conns[c], sys.n, i);
    }
    hide Steady, Recv, Met;
  }

  // ---------------------------------------------------------------- requests

  function Asks(c: nat, cmds: seq<Cmd>): seq<Step> {
    if cmds == [] then [] else Asks(c, cmds[..|cmds| - 1]) + [Request(c, cmds[|cmds| - 1])]
  }

  /** The commands as the client's next requests. */
  function Requests(c: nat, first: nat, cmds: seq<Cmd>): (r: seq<Op>)
    ensures |r| == |cmds| && forall j :: 0 <= j < |r| ==> r[j] == Op(c, first + j, cmds[j])
  {
    seq(|cmds|, j requires 0 <= j < |cmds| => Op(c, first + j, cmds[j]))
  }

  ghost predicate AfterAsking(sys: System, c: nat, cmds: seq<Cmd>, t: System) {
    && c < |sys.conns| == |t.conns| && |sys.conns[c].g.links| >= 2
    && var ops := Requests(c, |sys.conns[c].admitted|, cmds);
    && t.n == sys.n && t.conns[c].admitted == sys.conns[c].admitted + ops
    && t.conns[c].g == AdmitAll(sys.conns[c].g, ops) && !t.conns[c].g.client.error
    && Groups(t.conns) == Groups(sys.conns)[c := t.conns[c].g]
    && t.kafka == sys.kafka + Produced(ops)
  }

  lemma AskedNone(sys: System, c: nat)
    requires AllSteady(sys) && c < |sys.conns| && !sys.conns[c].g.client.error
    ensures AfterAsking(sys, c, [], sys)
  {
    Picked(sys, c);
    hide Steady;
  }

  lemma AskedOne(sys: System, c: nat, cmds: seq<Cmd>, t: System, cmd: Cmd)
    requires AfterAsking(sys, c, cmds, t) && AllSteady(t)
    ensures Enabled(t, Request(c, cmd)) && AfterAsking(sys, c, cmds + [cmd], Next(t, Request(c, cmd)))
  {
    hide Steady, Admit, AdmitAll, Produced;
    Picked(t, c);
    StillThere(t);
    hide AllSteady;
    var first := |sys.conns[c].admitted|;
    var ops, op := Requests(c, first, cmds), Op(c, |t.conns[c].admitted|, cmd);
    assert Requests(c, first, cmds + [cmd]) == ops + [op];
    OneMoreAdmitted(sys.conns[c].g, ops, op);
    AdmitSize(t.conns[c].g, op);
  }

  lemma StillThere(t: System)
    requires AllSteady(t)
    ensures Shaped(t) && !t.aborted
  {}

  lemma OneMoreAdmitted(g: Group, ops: seq<Op>, op: Op)
    requires |g.links| >= 2
    ensures AdmitAll(g, ops + [op]) == Admit(AdmitAll(g, ops), op)
    ensures Produced(ops + [op]) == Produced(ops) + if op.cmd.Set? then [op] else []
  {
    assert (ops + [op])[..|ops|] == ops;
  }

  lemma AdmitSize(g: Group, op: Op)
    requires |g.links| >= 2
    ensures Admit(g, op).client == g.client
  {}

  lemma {:induction false} TracksAsking(start: System, steps: seq<Step>, sys: System, c: nat, cmds: seq<Cmd>)
    returns (t: System)
    requires Tracks(start, steps, sys) && c < |sys.conns| && !sys.conns[c].g.client.error
    ensures Tracks(start, steps + Asks(c, cmds), t) && AfterAsking(sys, c, cmds, t)
  {
    hide Run, Final, Enabled, Next, Init, Steady, AfterAsking;
    if cmds == [] {
      assert steps + Asks(c, []) == steps;
      t := sys;
      AskedNone(sys, c);
    } else {
      var init, cmd := cmds[..|cmds| - 1], cmds[|cmds| - 1];
      var u := TracksAsking(start, steps, sys, c, init);
      assert AllSteady(u);
      AskedOne(sys, c, init, u, cmd);
      TracksNext(start, steps + Asks(c, init), u, Request(c, cmd));
      t := Next(u, Request(c, cmd));
      assert steps + Asks(c, cmds) == steps + Asks(c, init) + [Request(c, cmd)];
      assert init + [cmd] == cmds;
    }
  }

  /** The commands in a read. */
  function Commands(ms: seq<Frame.Message>, fields: string -> (Key, Val)): (r: seq<Cmd>)
    ensures |r| == |ms| && forall j :: 0 <= j < |r| ==> r[j] == CommandOf(ms[j], fields)
  {
    seq(|ms|, j requires 0 <= j < |ms| => CommandOf(ms[j], fields))
  }

  lemma {:induction false} AsksAt(c: nat, cmds: seq<Cmd>)
    ensures |Asks(c, cmds)| == |cmds| && forall j :: 0 <= j < |cmds| ==> Asks(c, cmds)[j] == Request(c, cmds[j])
  {
    if cmds != [] {
      AsksAt(c, cmds[..|cmds| - 1]);
    }
  }

  /** A put frame asks to write and a get frame to read. */
  lemma FramesAsked(c: nat, ms: seq<Frame.Message>, fields: string -> (Key, Val))
    requires forall i :: 0 <= i < |ms| ==> ReadsOrWrites(ms[i])
    ensures |Asks(c, Commands(ms, fields))| == |ms|
    ensures forall j :: 0 <= j < |ms| ==>
      var (key, val) := fields(ms[j].data);
      && (ms[j].kind == "protoSpec.PutMessage" ==> Asks(c, Commands(ms, fields))[j] == Request(c, Set(key, val)))
      && (ms[j].kind == "protoSpec.GetMessage" ==> Asks(c, Commands(ms, fields))[j] == Request(c, Get(key)))
  {
    hide Frame.Sendable;
    AsksAt(c, Commands(ms, fields));
    hide Asks;
  }

  lemma ExecutedGroups(sys: System, c: nat, i: nat)
    requires AllSteady(sys) && Enabled(sys, Execute(c, i))
    ensures var t := Next(sys, Execute(c, i)); Groups(t.conns) == Groups(sys.conns) && t.kafka == sys.kafka
  {
    hide Steady;
  }

  // ---------------------------------------------------------------- the deployment

  class Deployment {
    const server: NetworkServer
    /** The run so far, and the system it has led to. */
    ghost const start: System
    ghost var steps: seq<Step>
    ghost var sys: System

    ghost predicate Valid()
      reads this, server, server.Repr
    {
      && server.Valid() && this !in server.Repr && Tracks(start, steps, sys)
      && sys.n == server.replicas && server.model == Groups(sys.conns) && server.kafka == sys.kafka
    }

    constructor (replicas: nat)
      requires replicas >= 1
      ensures Valid() && fresh(server) && fresh(server.Repr) && steps == [] && server.replicas == replicas
    {
      server := new NetworkServer(replicas);
      start := ChainRuns.Start(replicas);
      steps := [];
      sys := ChainRuns.Start(replicas);
      new;
      ChainRuns.Started(replicas);
    }

    /** One more step of the run. */
    ghost method Note(step: Step)
      requires Tracks(start, steps, sys) && Enabled(sys, step) && Shaped(sys)
      modifies `steps, `sys
      ensures Tracks(start, steps, sys) && steps == old(steps) + [step]
      ensures sys == Next(old(sys), step) && sys.n == old(sys.n)
    {
      TracksNext(start, steps, sys, step);
      sys := Next(sys, step);
      steps := steps + [step];
    }

    lemma Steadily()
      requires Valid()
      ensures AllSteady(sys) && Shaped(sys)
    {}

    lemma LinkWorks(g: nat, i: nat, conn: Server)
      requires Valid() && server.Here(g, i, conn) && !conn.error
      ensures g < |sys.conns| && i < |sys.conns[g].g.links| == sys.n + 1 && !sys.conns[g].g.links[i].error
      ensures conn in server.Repr && server.fdes in server.Repr && server in server.Repr
    {
      server.Seen(g, i, conn);
      hide NetworkServer.Valid, Tracks;
    }

    lemma ClientWorks(g: nat, conn: Client)
      requires Valid() && g < |server.clients| && conn == server.clients[g] && !conn.error
      ensures g < |sys.conns| && !sys.conns[g].g.client.error
      ensures conn in server.Repr && server.fdes in server.Repr && server in server.Repr
    {
      server.SeenClient(g, conn);
      hide NetworkServer.Valid, Tracks;
    }

    /** establish_server_conn for a client that connects. */
    method Establish(conn: Client, table: seq<(Role, nat)>, ghost m: nat)
      requires Valid() && |table| == server.replicas + 1
      requires m < |table| && forall k :: 0 <= k < |table| ==> (table[k].0 == Master <==> k == m)
      requires forall j, k :: 0 <= j < k < |table| ==> table[j].1 != table[k].1
      requires forall k :: 0 <= k < |table| ==> table[k].1 !in server.place && table[k].1 != conn.fd
      requires conn !in server.Repr && conn.fd !in server.place && conn.imsgQ == [] && !conn.error
      modifies this, server, conn`dataletConn
      ensures Valid() && fresh(server.Repr - old(server.Repr) - {conn})
      ensures |steps| == |old(steps)| + 1 && old(steps) <= steps && steps[|old(steps)|].Accept?
    {
      ghost var before := Groups(sys.conns);
      hide NetworkServer.Valid, Enabled, Next, Fresh, Steady;
      server.Establish(conn, table, m);
      ghost var g := server.model[|before|];
      assert server.model == before + [g];
      Accepted(sys, g);
      Note(Accept(g));
    }

    /** req_recv on the bytes of one read: each frame is the client's next request. */
    method ReqRead(g: nat, conn: Client, msg: Bytes, first: nat, fields: string -> (Key, Val),
                   ghost ms: seq<Frame.Message>)
      requires Valid() && g < |server.clients| && conn == server.clients[g] && !conn.error
      requires g < |sys.conns| && first == |sys.conns[g].admitted|
      requires msg !in server.Repr && msg.Valid() && msg.Content() == Frame.EncodeAll(ms)
      requires forall i :: 0 <= i < |ms| ==> ReadsOrWrites(ms[i])
      modifies this, server.Repr, msg
      ensures Valid() && server.Repr == old(server.Repr)
      ensures steps == old(steps) + Asks(g, Commands(ms, fields))
      ensures |steps| == |old(steps)| + |ms|
      ensures forall j :: 0 <= j < |ms| ==>
        var (key, val) := fields(ms[j].data);
        && (ms[j].kind == "protoSpec.PutMessage" ==> steps[|old(steps)| + j] == Request(g, Set(key, val)))
        && (ms[j].kind == "protoSpec.GetMessage" ==> steps[|old(steps)| + j] == Request(g, Get(key)))
    {
      hide NetworkServer.Valid, Tracks, Frame.EncodeAll, Frame.Sendable, AdmitAll, Produced, Asks;
      ghost var cmds := Commands(ms, fields);
      ClientWorks(g, conn);
      ghost var t := TracksAsking(start, steps, sys, g, cmds);
      assert Requests(g, first, cmds) == OpsOf(ms, g, first, fields);
      hide Requests, OpsOf, Commands;
      server.ReqRead(g, conn, msg, first, fields, ms);
      sys := t;
      steps := steps + Asks(g, cmds);
      FramesAsked(g, ms, fields);
    }

    /** req_recv when the read fails. */
    method ReqRecvFails(ghost g: nat, conn: Client)
      requires Valid() && g < |server.clients| && conn == server.clients[g] && !conn.error
      modifies this, server.Repr
      ensures Valid() && server.Repr == old(server.Repr) && steps == old(steps) + [Hangup(g)]
    {
      hide NetworkServer.Valid, Tracks, AllSteady, Enabled, Next, RefreshedClient, Chain.FailClient;
      Steadily();
      ClientWorks(g, conn);
      HungUp(sys, g);
      server.ReqRecvFails(g, conn);
      Note(Hangup(g));
    }

    method ReqSend(ghost g: nat, ghost i: nat, conn: Server, written: bool) returns (ok: bool)
      requires Valid() && server.Here(g, i, conn) && !conn.error
      modifies this, server.Repr
      ensures Valid() && server.Repr == old(server.Repr)
      ensures steps == old(steps) + [if written then SendTo(g, i) else SendFails(g, i)]
    {
      hide NetworkServer.Valid, NetworkServer.Here, Tracks, AllSteady, Enabled, Next, Refreshed, Chain.Send;
      Steadily();
      LinkWorks(g, i, conn);
      Sent(sys, g, i, written);
      ok := server.ReqSend(g, i, conn, written);
      Note(if written then SendTo(g, i) else SendFails(g, i));
    }

    /** rsp_recv, on what the master's socket holds. */
    method RspRecv(ghost g: nat, conn: Server, msg: Option<Reply>) returns (ok: bool)
      requires Valid() && server.Here(g, 0, conn) && Finds(sys, g, 0, msg)
      modifies this, server.Repr
      ensures Valid() && server.Repr == old(server.Repr) && ok
      ensures steps == old(steps) + [if msg.Some? then Receive(g, 0) else ReceiveFails(g, 0)]
    {
      hide NetworkServer.Valid, NetworkServer.Here, Tracks, AllSteady, Enabled, Next, Chain.Recv, Finds;
      Steadily();
      Received(sys, g, 0, msg);
      ok := server.RspRecv(g, conn, msg);
      Note(if msg.Some? then Receive(g, 0) else ReceiveFails(g, 0));
    }

    /** replica_rsp_recv, on what the slave's socket holds. */
    method ReplicaRspRecv(ghost g: nat, ghost i: nat, conn: Server, msg: Option<Reply>) returns (ok: bool)
      requires Valid() && server.Here(g, i, conn) && 1 <= i && Finds(sys, g, i, msg)
      modifies this, server.Repr
      ensures Valid() && server.Repr == old(server.Repr) && ok
      ensures steps == old(steps) + [if msg.Some? then Receive(g, i) else ReceiveFails(g, i)]
    {
      hide NetworkServer.Valid, NetworkServer.Here, Tracks, AllSteady, Enabled, Next, Chain.Recv, Finds;
      Steadily();
      Received(sys, g, i, msg);
      ok := server.ReplicaRspRecv(g, i, conn, msg);
      Note(if msg.Some? then Receive(g, i) else ReceiveFails(g, i));
    }

    method RspSend(ghost g: nat, conn: Client, written: bool) returns (ok: bool)
      requires Valid() && g < |server.clients| && conn == server.clients[g] && !conn.error
      modifies this, server.Repr
      ensures Valid() && server.Repr == old(server.Repr)
      ensures steps == old(steps) + [if written then Respond(g) else RespondFails(g)]
    {
      hide NetworkServer.Valid, Tracks, AllSteady, Enabled, Next, RefreshedClient, Chain.SendReply;
      Steadily();
      ClientWorks(g, conn);
      Answered(sys, g, written);
      ok := server.RspSend(g, conn, written);
      Note(if written then Respond(g) else RespondFails(g));
    }

    /** A datalet executes the next request on a wire; the proxy does not notice. */
    ghost method Execute(g: nat, i: nat)
      requires Valid() && Enabled(sys, Step.Execute(g, i))
      modifies `steps, `sys
      ensures Valid() && steps == old(steps) + [Step.Execute(g, i)]
    {
      hide NetworkServer.Valid, Tracks, AllSteady, Enabled, Next;
      Steadily();
      ExecutedGroups(sys, g, i);
      Note(Step.Execute(g, i));
    }

    /**
     * The answers of the objects are linearizable as long as the clients keep the discipline, and a
     * read returns the last value written before it.
     */
    lemma Linearizable()
      requires Valid() && DisciplinedRun(start, steps)
      ensures Shaped(sys) && Linearization(sys.history, Tail(sys)) && ChainTheorems.RightAnswers(Tail(sys))
    {
      hide Linearization, DisciplinedRun, ChainTheorems.RightAnswers;
      ChainTheorems.Linearizable(start, steps);
    }
  }
}
