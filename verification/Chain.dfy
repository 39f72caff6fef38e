/**
 * Chain replication as a step system: the proxy's handlers acting on one client's links, and
 * the system of clients, sockets and datalets around them.
 *
 * Every client connection owns one link per datalet. Link 0 is the master, link i > 0 is slave
 * i - 1, and the last link is the tail of the chain.
 */
module Chain {
  import opened KeyValue
  import opened Wrappers

  /** A link to a datalet: queued requests, sent requests, flags and epoll subscription. */
  datatype Link = Link(imsg: seq<Op>, omsg: seq<Op>, fwd: bool, tail: bool,
                       wantIn: bool, wantOut: bool, error: bool)

  /** The link to the client itself: replies waiting to be written. */
  datatype ClientLink = ClientLink(imsg: seq<Reply>, wantIn: bool, wantOut: bool, error: bool)

  datatype Group = Group(links: seq<Link>, client: ClientLink)

  /** `Abort` is a failed CHECK, which ends the process. */
  datatype Outcome = Ok(group: Group) | Abort

  function Push(l: Link, op: Op): Link {
    l.(imsg := l.imsg + [op], wantOut := l.wantOut || l.imsg == [])
  }

  function PushReply(l: ClientLink, r: Reply): ClientLink {
    l.(imsg := l.imsg + [r], wantOut := l.wantOut || l.imsg == [])
  }

  function Fail(l: Link): Link {
    l.(error := true, wantIn := false, wantOut := false)
  }

  function FailClient(l: ClientLink): ClientLink {
    l.(error := true, wantIn := false, wantOut := false)
  }

  /** get_mapped_server_conn followed by the enqueue at the end of req_recv's loop body. */
  function Admit(g: Group, op: Op): Group
    requires |g.links| >= 2
  {
    var t := |g.links| - 1;
    match op.cmd
    case Set(_, _) =>
      g.(links := g.links[0 := Push(g.links[0].(fwd := true, tail := false), op)])
    case Get(_) =>
      g.(links := g.links[0 := g.links[0].(fwd := false)]
                         [t := Push(g.links[t].(fwd := false, tail := true), op)])
  }

  /** req_send and replica_req_send; `written` tells whether the write to the socket succeeded. */
  function Send(l: Link, written: bool): Link {
    if l.imsg == [] then l.(wantOut := false)
    else
      var popped := l.(imsg := l.imsg[1..]);
      if written then popped.(omsg := l.omsg + [l.imsg[0]], wantIn := true) else Fail(popped)
  }

  /** Moves the oldest sent request of link `i` to the queue of link `i + 1`. */
  function Forward(g: Group, i: nat): Outcome
    requires i + 1 < |g.links|
  {
    var l := g.links[i];
    if l.omsg == [] then Abort
    else Ok(g.(links := g.links[i := l.(omsg := l.omsg[1..])]
                               [i + 1 := Push(g.links[i + 1], l.omsg[0])]))
  }

  /** Retires the oldest sent request of link `i` and hands its response to the client. */
  function Deliver(g: Group, i: nat, msg: Reply): Outcome
    requires i < |g.links|
  {
    var l := g.links[i];
    if l.omsg == [] then Abort
    else Ok(Group(g.links[i := l.(omsg := l.omsg[1..])], PushReply(g.client, msg)))
  }

  /** rsp_recv: a response read from the master's link. */
  function MasterRecv(g: Group, msg: Reply): Outcome
    requires |g.links| >= 2
  {
    if g.links[0].fwd then Forward(g, 0) else Deliver(g, 0, msg)
  }

  /** replica_rsp_recv: a response read from link `i`, which is slave `i - 1`. */
  function SlaveRecv(g: Group, i: nat, msg: Reply): Outcome
    requires 1 <= i < |g.links|
  {
    var l := g.links[i];
    if g.links[0].fwd then
      if i < |g.links| - 1 then
        if l.omsg != [] && l.omsg[0].cmd.Get? then Abort else Forward(g, i)
      else Deliver(g, i, msg)
    else if l.tail then
      match Deliver(g, i, msg)
      case Abort => Abort
      case Ok(h) => Ok(h.(links := h.links[i := h.links[i].(tail := false)]))
    else
      Ok(g.(links := g.links[i := l.(omsg := if l.omsg == [] then [] else l.omsg[1..])]))
  }

  /** The read handler of link `i`; no message means that the read failed. */
  function Recv(g: Group, i: nat, msg: Option<Reply>): Outcome
    requires i < |g.links| && |g.links| >= 2
  {
    match msg
    case None => Ok(g.(links := g.links[i := Fail(g.links[i])]))
    case Some(r) => if i == 0 then MasterRecv(g, r) else SlaveRecv(g, i, r)
  }

  /** rsp_send: writes the oldest waiting reply to the client. */
  function SendReply(l: ClientLink, written: bool): ClientLink {
    if l.imsg == [] then l.(wantOut := false)
    else
      var popped := l.(imsg := l.imsg[1..]);
      if written then popped else FailClient(popped)
  }

  // ---------------------------------------------------------------- the whole system

  /** Requests written but not yet executed, and responses not yet read. */
  datatype Socket = Socket(wire: seq<Op>, rsps: seq<Reply>)

  datatype Conn = Conn(g: Group, socks: seq<Socket>, admitted: seq<Op>, replied: seq<Reply>)

  datatype Datalet = Datalet(kv: Kv, log: seq<Entry>)

  datatype Event = Invoked(op: Op) | Replied(op: Op, reply: Reply)

  /**
   * `n` is the number of slaves, `kafka` the shared request log, `history` what the clients
   * observe. The process has ended once `aborted` is set.
   */
  datatype System = System(n: nat, conns: seq<Conn>, datalets: seq<Datalet>, kafka: seq<Op>,
                           history: seq<Event>, aborted: bool)

  datatype Step =
    | Accept(group: Group)
    | Request(c: nat, cmd: Cmd)
    | SendTo(c: nat, i: nat)
    | Execute(c: nat, i: nat)
    | Receive(c: nat, i: nat)
    | Respond(c: nat)
    | SendFails(c: nat, i: nat)
    | ReceiveFails(c: nat, i: nat)
    | RespondFails(c: nat)
    | Hangup(c: nat)

  /** A freshly connected group; the constructor leaves the two flags of a link undefined. */
  ghost predicate Fresh(g: Group, n: nat) {
    && |g.links| == n + 1
    && (forall i :: 0 <= i < |g.links| ==>
          && g.links[i].imsg == [] && g.links[i].omsg == [] && !g.links[i].error)
    && g.client.imsg == [] && !g.client.error
  }

  function Idle(n: nat): seq<Socket> {
    seq(n + 1, _ => Socket([], []))
  }

  ghost predicate Init(s: System) {
    && s.n >= 1
    && s.conns == []
    && s.datalets == seq(s.n + 1, _ => Datalet(map[], []))
    && s.kafka == [] && s.history == [] && !s.aborted
  }

  ghost predicate Shaped(s: System) {
    && s.n >= 1
    && |s.datalets| == s.n + 1
    && forall c :: 0 <= c < |s.conns| ==> ShapedConn(s.conns[c], s.n)
  }

  ghost predicate ShapedConn(k: Conn, n: nat) {
    |k.g.links| == n + 1 && |k.socks| == n + 1
  }

  ghost predicate Live(s: System, c: nat, i: nat) {
    c < |s.conns| && i <= s.n && ShapedConn(s.conns[c], s.n) && !s.conns[c].g.links[i].error
  }

  ghost predicate LiveClient(s: System, c: nat) {
    c < |s.conns| && ShapedConn(s.conns[c], s.n) && !s.conns[c].g.client.error
  }

  ghost predicate Enabled(s: System, step: Step) {
    && !s.aborted
    && match step
       case Accept(g) => Fresh(g, s.n)
       case Request(c, _) => LiveClient(s, c)
       case SendTo(c, i) => Live(s, c, i)
       case Execute(c, i) =>
         c < |s.conns| && i <= s.n && ShapedConn(s.conns[c], s.n) && s.conns[c].socks[i].wire != []
       case Receive(c, i) => Live(s, c, i) && s.conns[c].socks[i].rsps != []
       case Respond(c) => LiveClient(s, c)
       case SendFails(c, i) => Live(s, c, i)
       case ReceiveFails(c, i) => Live(s, c, i)
       case RespondFails(c) => LiveClient(s, c)
       case Hangup(c) => LiveClient(s, c)
  }

  function WithConn(s: System, c: nat, k: Conn): System
    requires c < |s.conns|
  {
    s.(conns := s.conns[c := k])
  }

  ghost function Next(s: System, step: Step): System
    requires Shaped(s) && Enabled(s, step)
  {
    match step
    case Accept(g) => s.(conns := s.conns + [Conn(g, Idle(s.n), [], [])])
    case Request(c, cmd) =>
      var k := s.conns[c];
      var op := Op(c, |k.admitted|, cmd);
      WithConn(s, c, k.(g := Admit(k.g, op), admitted := k.admitted + [op]))
        .(kafka := if cmd.Set? then s.kafka + [op] else s.kafka,
          history := s.history + [Invoked(op)])
    case SendTo(c, i) =>
      var k := s.conns[c];
      var l := k.g.links[i];
      var sock := k.socks[i];
      WithConn(s, c, k.(g := k.g.(links := k.g.links[i := Send(l, true)]),
                        socks := k.socks[i := sock.(wire := sock.wire + l.imsg[..if l.imsg == [] then 0 else 1])]))
    case Execute(c, i) =>
      var k := s.conns[c];
      var sock := k.socks[i];
      var d := s.datalets[i];
      var op := sock.wire[0];
      var reply := Answer(d.kv, op.cmd);
      WithConn(s, c, k.(socks := k.socks[i := Socket(sock.wire[1..], sock.rsps + [reply])]))
        .(datalets := s.datalets[i := Datalet(Store(d.kv, op.cmd), d.log + [Entry(op, reply)])])
    case Receive(c, i) =>
      var k := s.conns[c];
      var sock := k.socks[i];
      (match Recv(k.g, i, Some(sock.rsps[0]))
       case Abort => s.(aborted := true)
       case Ok(g) => WithConn(s, c, k.(g := g, socks := k.socks[i := sock.(rsps := sock.rsps[1..])])))
    case Respond(c) =>
      var k := s.conns[c];
      var q := k.g.client.imsg;
      var sent := WithConn(s, c, k.(g := k.g.(client := SendReply(k.g.client, true)),
                                    replied := k.replied + q[..if q == [] then 0 else 1]));
      if q != [] && |k.replied| < |k.admitted| then
        sent.(history := s.history + [Replied(k.admitted[|k.replied|], q[0])])
      else sent
    case SendFails(c, i) =>
      var k := s.conns[c];
      WithConn(s, c, k.(g := k.g.(links := k.g.links[i := Send(k.g.links[i], false)])))
    case ReceiveFails(c, i) =>
      var k := s.conns[c];
      (match Recv(k.g, i, None)
       case Abort => s.(aborted := true)
       case Ok(g) => WithConn(s, c, k.(g := g)))
    case RespondFails(c) =>
      var k := s.conns[c];
      WithConn(s, c, k.(g := k.g.(client := SendReply(k.g.client, false))))
    case Hangup(c) =>
      var k := s.conns[c];
      WithConn(s, c, k.(g := k.g.(client := FailClient(k.g.client))))
  }

  lemma NextShaped(s: System, step: Step)
    requires Shaped(s) && Enabled(s, step)
    ensures Shaped(Next(s, step)) && Next(s, step).n == s.n
  {}

  /** Some sequence of steps leads from `s` through enabled steps only. */
  ghost predicate Run(s: System, steps: seq<Step>) {
    Shaped(s) && (steps == [] || (
      var init := steps[..|steps| - 1];
      Run(s, init) && Shaped(Final(s, init)) && Enabled(Final(s, init), steps[|steps| - 1])))
  }

  ghost function Final(s: System, steps: seq<Step>): (r: System)
  {
    if steps == [] then s
    else
      var prev := Final(s, steps[..|steps| - 1]);
      if Shaped(prev) && Enabled(prev, steps[|steps| - 1]) then Next(prev, steps[|steps| - 1]) else prev
  }
}
