/**
 * The chain drains. Every move of a request or a reply lowers a measure, in any order and in every
 * run, and when no move is left all requests of a disciplined run have been answered.
 */
module ChainProgress {
  import opened KeyValue
  import opened Chain
  import opened ChainConservation
  import opened ChainInvariant
  import ChainLiveness
  import opened ChainSafety
  import opened ChainResponses
  import opened Wrappers

  // ---------------------------------------------------------------- moves and their measure

  /** A step of the system itself that finds something to move. */
  ghost predicate Moving(s: System, step: Step) {
    && Enabled(s, step)
    && match step
       case SendTo(c, i) => s.conns[c].g.links[i].imsg != []
       case Execute(_, _) => true
       case Receive(_, _) => true
       case Respond(c) => s.conns[c].g.client.imsg != []
       case _ => false
  }

  /** How many moves are left for what is at a link, when `r` links are left from there on. */
  function LinkWork(l: Link, sock: Socket, r: nat): int {
    (3 * r + 1) * |l.imsg| + 3 * r * |sock.wire| + (3 * r - 1) * |sock.rsps|
  }

  function LinksWork(links: seq<Link>, socks: seq<Socket>): int
    requires |links| == |socks|
  {
    if links == [] then 0
    else LinkWork(links[0], socks[0], |links|) + LinksWork(links[1..], socks[1..])
  }

  function ConnWork(k: Conn): int {
    (if |k.g.links| == |k.socks| then LinksWork(k.g.links, k.socks) else 0) + |k.g.client.imsg|
  }

  function Work(conns: seq<Conn>): int {
    if conns == [] then 0 else ConnWork(conns[0]) + Work(conns[1..])
  }

  lemma {:induction false} LinksWorkAt(links: seq<Link>, socks: seq<Socket>, i: nat, l: Link, sock: Socket)
    requires i < |links| == |socks|
    ensures var r := |links| - i;
      LinksWork(links[i := l], socks[i := sock]) - LinksWork(links, socks)
        == LinkWork(l, sock, r) - LinkWork(links[i], socks[i], r)
  {
    hide LinkWork;
    var links', socks' := links[i := l], socks[i := sock];
    if i == 0 {
      assert links'[1..] == links[1..] && socks'[1..] == socks[1..];
    } else {
      LinksWorkAt(links[1..], socks[1..], i - 1, l, sock);
      assert links'[1..] == links[1..][i - 1 := l] && socks'[1..] == socks[1..][i - 1 := sock];
    }
  }

  lemma {:induction false} WorkAt(conns: seq<Conn>, c: nat, k: Conn)
    requires c < |conns|
    ensures Work(conns[c := k]) - Work(conns) == ConnWork(k) - ConnWork(conns[c])
  {
    hide ConnWork;
    if c == 0 {
      assert conns[c := k][1..] == conns[1..];
    } else {
      WorkAt(conns[1..], c - 1, k);
      assert conns[c := k][1..] == conns[1..][c - 1 := k];
    }
  }

  lemma {:induction false} LinksWorkPositive(links: seq<Link>, socks: seq<Socket>)
    requires |links| == |socks|
    ensures LinksWork(links, socks) >= 0
  {
    if links != [] {
      LinksWorkPositive(links[1..], socks[1..]);
    }
  }

  lemma {:induction false} WorkPositive(conns: seq<Conn>)
    ensures Work(conns) >= 0
  {
    if conns != [] {
      WorkPositive(conns[1..]);
      var k := conns[0];
      if |k.g.links| == |k.socks| { LinksWorkPositive(k.g.links, k.socks); }
    }
  }

  // ---------------------------------------------------------------- every move lowers it

  lemma SendWork(l: Link, sock: Socket, r: nat)
    requires l.imsg != []
    ensures LinkWork(Send(l, true), sock.(wire := sock.wire + l.imsg[..1]), r) == LinkWork(l, sock, r) - 1
  {
    Times(3 * r + 1, |l.imsg| - 1);
    Times(3 * r, |sock.wire|);
  }

  lemma ExecuteWork(l: Link, sock: Socket, reply: Reply, r: nat)
    requires sock.wire != []
    ensures LinkWork(l, Socket(sock.wire[1..], sock.rsps + [reply]), r) == LinkWork(l, sock, r) - 1
  {
    Times(3 * r, |sock.wire| - 1);
    Times(3 * r - 1, |sock.rsps|);
  }

  lemma PopWork(l: Link, l': Link, sock: Socket, r: nat)
    requires sock.rsps != [] && l'.imsg == l.imsg
    ensures LinkWork(l', sock.(rsps := sock.rsps[1..]), r) == LinkWork(l, sock, r) - (3 * r - 1)
  {
    Times(3 * r - 1, |sock.rsps| - 1);
  }

  lemma PushWork(l: Link, l': Link, sock: Socket, op: Op, r: nat)
    requires l'.imsg == l.imsg + [op]
    ensures LinkWork(l', sock, r) == LinkWork(l, sock, r) + 3 * r + 1
  {
    Times(3 * r + 1, |l.imsg|);
  }

  lemma Times(a: int, b: int)
    ensures a * (b + 1) == a * b + a
  {}

  /** The connection after a response of link `i` has been read. */
  function Answered(k: Conn, i: nat, h: Group): Conn
    requires i < |k.socks| && k.socks[i].rsps != []
  {
    k.(g := h, socks := k.socks[i := k.socks[i].(rsps := k.socks[i].rsps[1..])])
  }

  lemma ReceiveWork(k: Conn, n: nat, i: nat)
    requires Steady(k, n) && i <= n && k.socks[i].rsps != []
    ensures Recv(k.g, i, Some(k.socks[i].rsps[0])).Ok?
    ensures ConnWork(Answered(k, i, Recv(k.g, i, Some(k.socks[i].rsps[0])).group)) < ConnWork(k)
  {
    var msg := k.socks[i].rsps[0];
    MeetsFate(k, n, i, msg);
    var h := Recv(k.g, i, Some(msg)).group;
    var fate := FateOf(Latest(k), i, n, k.g.links[i].tail);
    hide Recv, Steady, LinkWork, LinksWork, FateOf;
    MetWork(k, n, i, h, msg, fate);
  }

  lemma MetWork(k: Conn, n: nat, i: nat, h: Group, msg: Reply, fate: Fate)
    requires ShapedConn(k, n) && i <= n && k.socks[i].rsps != [] && Met(k.g, h, i, msg, fate)
    ensures ConnWork(Answered(k, i, h)) < ConnWork(k)
  {
    hide LinkWork, LinksWork;
    var sock := k.socks[i].(rsps := k.socks[i].rsps[1..]);
    var socks := k.socks[i := sock];
    var links := k.g.links[i := h.links[i]];
    var r := n + 1 - i;
    LinksWorkAt(k.g.links, k.socks, i, h.links[i], sock);
    PopWork(k.g.links[i], h.links[i], k.socks[i], r);
    if fate.Passed? {
      LinksWorkAt(links, socks, i + 1, h.links[i + 1], socks[i + 1]);
      PushWork(links[i + 1], h.links[i + 1], socks[i + 1], k.g.links[i].omsg[0], r - 1);
      assert h.links == links[i + 1 := h.links[i + 1]];
      assert socks[i + 1 := socks[i + 1]] == socks;
    } else {
      assert h.links == links;
    }
  }

  lemma SendConnWork(k: Conn, n: nat, i: nat)
    requires ShapedConn(k, n) && i <= n && k.g.links[i].imsg != []
    ensures var sock := k.socks[i];
      ConnWork(k.(g := k.g.(links := k.g.links[i := Send(k.g.links[i], true)]),
                  socks := k.socks[i := sock.(wire := sock.wire + k.g.links[i].imsg[..1])])) < ConnWork(k)
  {
    var l, sock := k.g.links[i], k.socks[i];
    SendWork(l, sock, n + 1 - i);
    LinksWorkAt(k.g.links, k.socks, i, Send(l, true), sock.(wire := sock.wire + l.imsg[..1]));
    hide LinkWork, LinksWork, Send;
  }

  lemma ExecuteConnWork(k: Conn, n: nat, i: nat, reply: Reply)
    requires ShapedConn(k, n) && i <= n && k.socks[i].wire != []
    ensures ConnWork(k.(socks := k.socks[i := Socket(k.socks[i].wire[1..], k.socks[i].rsps + [reply])])) < ConnWork(k)
  {
    var l, sock := k.g.links[i], k.socks[i];
    ExecuteWork(l, sock, reply, n + 1 - i);
    LinksWorkAt(k.g.links, k.socks, i, l, Socket(sock.wire[1..], sock.rsps + [reply]));
    assert k.g.links[i := l] == k.g.links;
    hide LinkWork, LinksWork;
  }

  lemma ConnMove(s: System, step: Step)
    requires AllSteady(s) && Moving(s, step)
    ensures var t := Next(s, step);
      && step.c < |t.conns| && t.conns == s.conns[step.c := t.conns[step.c]]
      && ConnWork(t.conns[step.c]) < ConnWork(s.conns[step.c])
  {
    var c := step.c;
    Picked(s, c);
    var k := s.conns[c];
    hide Steady, AllSteady, LinksWork, Recv, Send;
    if step.SendTo? {
      SendConnWork(k, s.n, step.i);
    } else if step.Execute? {
      ExecuteConnWork(k, s.n, step.i, Answer(s.datalets[step.i].kv, k.socks[step.i].wire[0].cmd));
    } else if step.Receive? {
      ReceiveWork(k, s.n, step.i);
    }
  }

  lemma MoveWork(s: System, step: Step)
    requires AllSteady(s) && Moving(s, step)
    ensures Work(Next(s, step).conns) < Work(s.conns)
  {
    hide Work, ConnWork, Next;
    ConnMove(s, step);
    WorkAt(s.conns, step.c, Next(s, step).conns[step.c]);
  }

  // ---------------------------------------------------------------- whole runs

  ghost predicate Moves(s: System, moves: seq<Step>)
    decreases |moves|
  {
    moves != [] ==> Shaped(s) && Moving(s, moves[0]) && Moves(Next(s, moves[0]), moves[1..])
  }

  lemma {:induction false} MovesEnd(s: System, moves: seq<Step>)
    requires AllSteady(s) && Moves(s, moves)
    ensures |moves| <= Work(s.conns)
    decreases moves
  {
    WorkPositive(s.conns);
    if moves != [] {
      hide Next, AllSteady, Work, Enabled;
      MoveWork(s, moves[0]);
      SteadyStep(s, moves[0]);
      MovesEnd(Next(s, moves[0]), moves[1..]);
    }
  }

  /** In any order, at most `Work` moves are left to a system that nobody asks anything more. */
  lemma Draining(s: System, steps: seq<Step>, moves: seq<Step>)
    requires Init(s) && Run(s, steps) && Moves(Final(s, steps), moves)
    ensures |moves| <= Work(Final(s, steps).conns)
  {
    hide *;
    RunSteady(s, steps);
    MovesEnd(Final(s, steps), moves);
  }

  /** The handler that makes the move is subscribed to the event that calls it. */
  ghost predicate Woken(s: System, step: Step)
    requires Moving(s, step)
  {
    match step
    case SendTo(c, i) => s.conns[c].g.links[i].wantOut
    case Receive(c, i) => s.conns[c].g.links[i].wantIn
    case Respond(c) => s.conns[c].g.client.wantOut
    case Execute(_, _) => true
  }

  /** Whatever can move is subscribed to, in every run. */
  lemma MovesAreWoken(s: System, steps: seq<Step>, step: Step)
    requires Init(s) && Run(s, steps) && Moving(Final(s, steps), step)
    ensures Woken(Final(s, steps), step)
  {
    hide Final, Run;
    var f := Final(s, steps);
    RunSteady(s, steps);
    Picked(f, step.c);
    if step.Respond? {
      ChainLiveness.NoLostWakeup(s, steps, step.c, 0);
    } else {
      ChainLiveness.NoLostWakeup(s, steps, step.c, step.i);
      assert Paired(f.conns[step.c].g.links[step.i], f.conns[step.c].socks[step.i]);
    }
  }

  lemma NothingMoves(s: System, c: nat)
    requires Inv(s) && c < |s.conns| && forall step :: !Moving(s, step)
    ensures s.conns[c].g.client.imsg == [] && Flight(s.conns[c].g.links) == []
  {
    hide Linearization, Flight, Applied, TailApplied, Recorded, Datalets, Known, AllInvoked, Journaled, NoStrangers;
    ConnShaped(s, c);
    var k := s.conns[c];
    assert !Moving(s, Respond(c));
    forall i | 0 <= i <= s.n
      ensures Held(k.g.links[i]) == []
    {
      assert !Moving(s, SendTo(c, i)) && !Moving(s, Execute(c, i)) && !Moving(s, Receive(c, i));
      assert WiredAt(k.g.links[i], k.socks[i]);
    }
    AllEmpty(k.g.links);
  }

  /** When nothing is left to move in a disciplined run, every client has all its answers. */
  lemma AllAnswered(s: System, steps: seq<Step>, c: nat)
    requires Init(s) && DisciplinedRun(s, steps) && c < |Final(s, steps).conns|
    requires forall step :: !Moving(Final(s, steps), step)
    ensures |Final(s, steps).conns[c].replied| == |Final(s, steps).conns[c].admitted|
  {
    hide Final, DisciplinedRun, Moving, Linearization, Flight, Applied, TailApplied, Recorded, Datalets, Known,
      AllInvoked, Journaled, NoStrangers;
    RunInv(s, steps);
    NothingMoves(Final(s, steps), c);
    ConnShaped(Final(s, steps), c);
  }
}
