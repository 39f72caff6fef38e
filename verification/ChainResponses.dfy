/**
 * What becomes of the response to a request, in every run: disciplined or not, with failing
 * sockets. It is passed down the chain, handed to the client or dropped, and which of these is
 * settled by flags that only the client's requests set.
 */
module ChainResponses {
  import opened KeyValue
  import opened Chain
  import opened ChainConservation
  import opened Wrappers

  // ---------------------------------------------------------------- what every step keeps

  /** Every sent request is on the wire or has its response there. */
  ghost predicate Paired(l: Link, sock: Socket) {
    |l.omsg| == |sock.wire| + |sock.rsps|
  }

  /** Only the last link ever holds a read. */
  ghost predicate WritesOnly(l: Link) {
    AllWrites(l.imsg) && AllWrites(l.omsg)
  }

  function Latest(k: Conn): Cmd
    requires k.admitted != []
  {
    k.admitted[|k.admitted| - 1].cmd
  }

  ghost predicate Steady(k: Conn, n: nat) {
    && n >= 1 && ShapedConn(k, n)
    && (forall i :: 0 <= i <= n ==> Paired(k.g.links[i], k.socks[i]))
    && (forall i :: 0 <= i < n ==> WritesOnly(k.g.links[i]))
    && (if k.admitted == [] then forall i :: 0 <= i <= n ==> k.g.links[i].imsg == [] && k.g.links[i].omsg == []
        else k.g.links[0].fwd == Latest(k).Set?)
  }

  ghost predicate AllSteady(s: System) {
    Shaped(s) && !s.aborted && forall c :: 0 <= c < |s.conns| ==> Steady(s.conns[c], s.n)
  }

  // ---------------------------------------------------------------- fates

  datatype Fate = Passed | Delivered | Dropped

  /** A write's response goes down the chain; a read's comes from the link that is flagged for it. */
  function FateOf(latest: Cmd, i: nat, n: nat, flagged: bool): Fate {
    if latest.Set? then if i < n then Passed else Delivered
    else if i == 0 || flagged then Delivered
    else Dropped
  }

  /** The oldest request of link `i` leaves it, and its response meets the fate. */
  ghost predicate Met(g: Group, h: Group, i: nat, msg: Reply, fate: Fate) {
    && i < |g.links| == |h.links| && g.links[i].omsg != []
    && h.links[i].omsg == g.links[i].omsg[1..] && h.links[i].imsg == g.links[i].imsg
    && (forall j :: 0 <= j < |h.links| && j != i && !(fate.Passed? && j == i + 1) ==> h.links[j] == g.links[j])
    && match fate
       case Passed => && i + 1 < |h.links| && h.client == g.client
                      && h.links[i + 1].imsg == g.links[i + 1].imsg + [g.links[i].omsg[0]]
                      && h.links[i + 1].omsg == g.links[i + 1].omsg
       case Delivered => h.client.imsg == g.client.imsg + [msg]
       case Dropped => h.client == g.client
  }

  lemma MeetsFate(k: Conn, n: nat, i: nat, msg: Reply)
    requires Steady(k, n) && i <= n && k.socks[i].rsps != []
    ensures k.admitted != [] && Recv(k.g, i, Some(msg)).Ok?
    ensures Met(k.g, Recv(k.g, i, Some(msg)).group, i, msg, FateOf(Latest(k), i, n, k.g.links[i].tail))
  {
    assert Paired(k.g.links[i], k.socks[i]);
    assert i < n ==> WritesOnly(k.g.links[i]);
  }

  // ---------------------------------------------------------------- one connection

  lemma SteadyAsk(k: Conn, n: nat, op: Op)
    requires Steady(k, n)
    ensures Steady(k.(g := Admit(k.g, op), admitted := k.admitted + [op]), n)
  {
    var l := if op.cmd.Set? then 0 else n;
    assert Paired(k.g.links[l], k.socks[l]);
    assert WritesOnly(k.g.links[0]);
  }

  lemma SteadySend(k: Conn, n: nat, i: nat)
    requires Steady(k, n) && i <= n
    ensures var l, sock := k.g.links[i], k.socks[i];
      && Steady(k.(g := k.g.(links := k.g.links[i := Send(l, true)]),
                   socks := k.socks[i := sock.(wire := sock.wire + l.imsg[..if l.imsg == [] then 0 else 1])]), n)
      && Steady(k.(g := k.g.(links := k.g.links[i := Send(l, false)])), n)
  {
    assert Paired(k.g.links[i], k.socks[i]);
    assert i < n ==> WritesOnly(k.g.links[i]);
  }

  lemma SteadyExecute(k: Conn, n: nat, i: nat, reply: Reply)
    requires Steady(k, n) && i <= n && k.socks[i].wire != []
    ensures Steady(k.(socks := k.socks[i := Socket(k.socks[i].wire[1..], k.socks[i].rsps + [reply])]), n)
  {
    assert Paired(k.g.links[i], k.socks[i]);
  }

  lemma RecvKeeps(g: Group, i: nat, msg: Reply)
    requires i < |g.links| && |g.links| >= 2 && Recv(g, i, Some(msg)).Ok?
    ensures Recv(g, i, Some(msg)).group.links[0].fwd == g.links[0].fwd
  {}

  lemma SteadyReceive(k: Conn, n: nat, i: nat, h: Group)
    requires Steady(k, n) && i <= n && k.socks[i].rsps != []
    requires h == Recv(k.g, i, Some(k.socks[i].rsps[0])).group
    requires Recv(k.g, i, Some(k.socks[i].rsps[0])).Ok?
    ensures Steady(k.(g := h, socks := k.socks[i := k.socks[i].(rsps := k.socks[i].rsps[1..])]), n)
  {
    MeetsFate(k, n, i, k.socks[i].rsps[0]);
    RecvKeeps(k.g, i, k.socks[i].rsps[0]);
    hide Recv;
    assert Paired(k.g.links[i], k.socks[i]);
    assert i < n ==> WritesOnly(k.g.links[i]);
    if i < n {
      assert Paired(k.g.links[i + 1], k.socks[i + 1]);
      assert i + 1 < n ==> WritesOnly(k.g.links[i + 1]);
    }
  }

  lemma SteadyFail(k: Conn, n: nat, i: nat)
    requires Steady(k, n) && i <= n
    ensures Recv(k.g, i, None).Ok? && Steady(k.(g := Recv(k.g, i, None).group), n)
  {
    assert Paired(k.g.links[i], k.socks[i]);
    assert i < n ==> WritesOnly(k.g.links[i]);
  }

  lemma SteadyClient(k: Conn, n: nat, client: ClientLink, replied: seq<Reply>)
    requires Steady(k, n)
    ensures Steady(k.(g := k.g.(client := client), replied := replied), n)
  {}

  lemma SteadyStart(g: Group, n: nat)
    requires n >= 1 && Fresh(g, n)
    ensures Steady(Conn(g, Idle(n), [], []), n)
  {}

  // ---------------------------------------------------------------- the system

  lemma Picked(s: System, c: nat)
    requires AllSteady(s) && c < |s.conns|
    ensures Shaped(s) && ShapedConn(s.conns[c], s.n) && Steady(s.conns[c], s.n)
  {}

  lemma Untouched(s: System, step: Step, c: nat)
    requires Shaped(s) && Enabled(s, step) && c < |s.conns| && (step.Accept? || step.c != c)
    ensures c < |Next(s, step).conns| && Next(s, step).conns[c] == s.conns[c]
  {
    hide Recv, Admit, Send;
  }

  lemma ReceivedStep(s: System, c: nat, i: nat)
    requires AllSteady(s) && Enabled(s, Receive(c, i))
    ensures var t := Next(s, Receive(c, i)); !t.aborted && c < |t.conns| && Steady(t.conns[c], s.n)
  {
    hide AllSteady, Steady, Recv;
    Picked(s, c);
    var k := s.conns[c];
    MeetsFate(k, s.n, i, k.socks[i].rsps[0]);
    SteadyReceive(k, s.n, i, Recv(k.g, i, Some(k.socks[i].rsps[0])).group);
    hide Met;
  }

  lemma LinkStep(s: System, step: Step)
    requires AllSteady(s) && Enabled(s, step)
    requires step.SendTo? || step.SendFails? || step.Execute? || step.ReceiveFails?
    ensures var t := Next(s, step); !t.aborted && step.c < |t.conns| && Steady(t.conns[step.c], s.n)
  {
    var t, c, i := Next(s, step), step.c, step.i;
    hide AllSteady, Steady, Recv, Send;
    Picked(s, c);
    var k := s.conns[c];
    if step.SendTo? || step.SendFails? {
      SteadySend(k, s.n, i);
    } else if step.Execute? {
      SteadyExecute(k, s.n, i, Answer(s.datalets[i].kv, k.socks[i].wire[0].cmd));
    } else {
      SteadyFail(k, s.n, i);
    }
  }

  lemma ClientStep(s: System, step: Step)
    requires AllSteady(s) && Enabled(s, step)
    requires step.Request? || step.Respond? || step.RespondFails? || step.Hangup?
    ensures var t := Next(s, step); !t.aborted && step.c < |t.conns| && Steady(t.conns[step.c], s.n)
  {
    var t, c := Next(s, step), step.c;
    hide AllSteady, Steady, Admit;
    Picked(s, c);
    if step.Request? {
      SteadyAsk(s.conns[c], s.n, Op(c, |s.conns[c].admitted|, step.cmd));
    } else {
      SteadyClient(s.conns[c], s.n, t.conns[c].g.client, t.conns[c].replied);
    }
  }

  lemma AcceptStep(s: System, g: Group)
    requires AllSteady(s) && Enabled(s, Accept(g))
    ensures var t := Next(s, Accept(g)); !t.aborted && |t.conns| == |s.conns| + 1 && Steady(t.conns[|s.conns|], s.n)
  {
    SteadyStart(g, s.n);
    hide Steady;
  }

  lemma ConnStep(s: System, step: Step)
    requires AllSteady(s) && Enabled(s, step)
    ensures var t := Next(s, step);
      && !t.aborted && |s.conns| <= |t.conns| <= |s.conns| + 1
      && (forall c :: 0 <= c < |s.conns| && (step.Accept? || step.c != c) ==> t.conns[c] == s.conns[c])
      && if step.Accept? then |t.conns| > |s.conns| && Steady(t.conns[|s.conns|], s.n)
         else step.c < |s.conns| == |t.conns| && Steady(t.conns[step.c], s.n)
  {
    assert !step.Accept? ==> step.c < |s.conns| == |Next(s, step).conns| by {
      hide Recv, Admit, Send;
    }
    hide Steady, Next, Enabled;
    forall c | 0 <= c < |s.conns| && (step.Accept? || step.c != c)
      ensures c < |Next(s, step).conns| && Next(s, step).conns[c] == s.conns[c]
    {
      Untouched(s, step, c);
    }
    match step
    case Accept(g) => AcceptStep(s, g);
    case Receive(c, i) => ReceivedStep(s, c, i);
    case Request(_, _) => ClientStep(s, step);
    case Respond(_) => ClientStep(s, step);
    case RespondFails(_) => ClientStep(s, step);
    case Hangup(_) => ClientStep(s, step);
    case _ => LinkStep(s, step);
  }

  lemma SteadyStep(s: System, step: Step)
    requires AllSteady(s) && Enabled(s, step)
    ensures AllSteady(Next(s, step))
  {
    hide Steady, Enabled, Next;
    NextShaped(s, step);
    ConnStep(s, step);
  }

  lemma {:induction false} RunSteady(s: System, steps: seq<Step>)
    requires Init(s) && Run(s, steps)
    ensures AllSteady(Final(s, steps)) && Final(s, steps).n == s.n
  {
    if steps != [] {
      var init := steps[..|steps| - 1];
      hide Enabled, Next, AllSteady;
      RunSteady(s, init);
      SteadyStep(Final(s, init), steps[|steps| - 1]);
      NextShaped(Final(s, init), steps[|steps| - 1]);
    }
  }

  /** No check fails in any run: the process never ends itself. */
  lemma NeverAborts(s: System, steps: seq<Step>)
    requires Init(s) && Run(s, steps)
    ensures !Final(s, steps).aborted
  {
    hide Run, Final;
    RunSteady(s, steps);
    hide Steady;
  }

  // ---------------------------------------------------------------- the flags

  /** No response of link `i` has been read since the latest request of client `c`. */
  ghost predicate NoneSince(steps: seq<Step>, c: nat, i: nat) {
    steps != [] ==>
      match steps[|steps| - 1]
      case Request(d, _) => d == c || NoneSince(steps[..|steps| - 1], c, i)
      case Receive(d, j) => !(d == c && j == i) && NoneSince(steps[..|steps| - 1], c, i)
      case _ => NoneSince(steps[..|steps| - 1], c, i)
  }

  /** The last link is flagged after a read exactly until the first response comes from it. */
  ghost predicate Flagged(k: Conn, steps: seq<Step>, c: nat) {
    |k.g.links| >= 2 &&
    (k.admitted != [] && Latest(k).Get? ==> k.g.links[|k.g.links| - 1].tail == NoneSince(steps, c, |k.g.links| - 1))
  }

  lemma RecvFlag(k: Conn, n: nat, i: nat, msg: Reply)
    requires Steady(k, n) && i <= n && k.socks[i].rsps != [] && Latest(k).Get?
    ensures Recv(k.g, i, Some(msg)).Ok?
    ensures var h := Recv(k.g, i, Some(msg)).group;
      |h.links| == n + 1 && h.links[n].tail == (i != n && k.g.links[n].tail)
  {
    MeetsFate(k, n, i, msg);
  }

  /** The other steps of a client leave its flags alone. */
  lemma FlagsKept(s: System, step: Step, c: nat, i: nat)
    requires AllSteady(s) && Enabled(s, step) && !step.Accept? && !step.Request? && !step.Receive?
    requires c < |s.conns| && step.c == c && i <= s.n
    ensures var k' := Next(s, step).conns[c];
      k'.admitted == s.conns[c].admitted && |k'.g.links| == s.n + 1 && k'.g.links[i].tail == s.conns[c].g.links[i].tail
  {
    Picked(s, c);
    hide Steady, AllSteady;
  }

  lemma ReceivedFlag(s: System, c: nat, i: nat)
    requires AllSteady(s) && Enabled(s, Receive(c, i)) && s.conns[c].admitted != [] && Latest(s.conns[c]).Get?
    ensures var k' := Next(s, Receive(c, i)).conns[c];
      && k'.admitted == s.conns[c].admitted && |k'.g.links| == s.n + 1
      && k'.g.links[s.n].tail == (i != s.n && s.conns[c].g.links[s.n].tail)
  {
    Picked(s, c);
    var k := s.conns[c];
    RecvFlag(k, s.n, i, k.socks[i].rsps[0]);
    hide Steady, AllSteady, Recv;
  }

  lemma RequestFlag(s: System, c: nat, cmd: Cmd)
    requires AllSteady(s) && Enabled(s, Request(c, cmd))
    ensures var k' := Next(s, Request(c, cmd)).conns[c];
      |k'.g.links| == s.n + 1 && k'.admitted != [] && Latest(k') == cmd && (cmd.Get? ==> k'.g.links[s.n].tail)
  {
    hide Steady;
  }

  lemma FlagStep(s: System, step: Step, steps: seq<Step>, c: nat)
    requires AllSteady(s) && Enabled(s, step) && steps != [] && steps[|steps| - 1] == step
    requires c < |s.conns| && Flagged(s.conns[c], steps[..|steps| - 1], c) && !step.Accept? && step.c == c
    ensures c < |Next(s, step).conns| && Flagged(Next(s, step).conns[c], steps, c)
  {
    Picked(s, c);
    ConnStep(s, step);
    OneMore(steps, c, s.n);
    hide Steady, AllSteady, NoneSince, Next, Enabled;
    if step.Request? {
      RequestFlag(s, c, step.cmd);
    } else if step.Receive? {
      ReceivedSame(s, c, step.i);
      if s.conns[c].admitted != [] && Latest(s.conns[c]).Get? {
        ReceivedFlag(s, c, step.i);
      }
    } else {
      FlagsKept(s, step, c, s.n);
    }
  }

  lemma ReceivedSame(s: System, c: nat, i: nat)
    requires AllSteady(s) && Enabled(s, Receive(c, i))
    ensures var k' := Next(s, Receive(c, i)).conns[c];
      |k'.g.links| == s.n + 1 && k'.admitted == s.conns[c].admitted
  {
    NextShaped(s, Receive(c, i));
    hide Steady, AllSteady, Recv;
  }

  lemma OneMore(steps: seq<Step>, c: nat, i: nat)
    requires steps != []
    ensures var step := steps[|steps| - 1];
      NoneSince(steps, c, i) ==
        ((step.Request? && step.c == c) ||
         (!(step.Receive? && step.c == c && step.i == i) && NoneSince(steps[..|steps| - 1], c, i)))
  {}

  lemma {:induction false} TailFlag(s: System, steps: seq<Step>, c: nat)
    requires Init(s) && Run(s, steps) && c < |Final(s, steps).conns|
    ensures Flagged(Final(s, steps).conns[c], steps, c)
  {
    if steps != [] {
      var init, step := steps[..|steps| - 1], steps[|steps| - 1];
      hide Enabled, Next, AllSteady, Flagged;
      RunSteady(s, init);
      var f := Final(s, init);
      if c < |f.conns| {
        TailFlag(s, init, c);
        if step.Accept? || step.c != c {
          Untouched(f, step, c);
          SameFlag(f.conns[c], steps, c);
        } else {
          FlagStep(f, step, steps, c);
        }
      } else {
        NewFlag(f, step, steps, c);
      }
    }
  }

  lemma SameFlag(k: Conn, steps: seq<Step>, c: nat)
    requires steps != [] && Flagged(k, steps[..|steps| - 1], c)
    requires steps[|steps| - 1].Accept? || steps[|steps| - 1].c != c
    ensures Flagged(k, steps, c)
  {
    OneMore(steps, c, |k.g.links| - 1);
    hide NoneSince;
  }

  lemma NewFlag(s: System, step: Step, steps: seq<Step>, c: nat)
    requires AllSteady(s) && Enabled(s, step) && |s.conns| <= c < |Next(s, step).conns|
    ensures Flagged(Next(s, step).conns[c], steps, c)
  {
    hide Steady, Recv, Admit, Send, NoneSince;
  }

  /** No group is connected with a flag left over from what its memory held before. */
  ghost predicate CleanAccepts(steps: seq<Step>) {
    forall j :: 0 <= j < |steps| && steps[j].Accept? ==> Unflagged(steps[j].group.links)
  }

  ghost predicate Unflagged(links: seq<Link>) {
    forall i :: 0 < i < |links| - 1 ==> !links[i].tail
  }

  lemma AdmitUnflagged(g: Group, op: Op)
    requires Unflagged(g.links) && |g.links| >= 2
    ensures Unflagged(Admit(g, op).links)
  {}

  lemma RecvUnflagged(g: Group, i: nat, msg: Option<Reply>)
    requires Unflagged(g.links) && i < |g.links| && |g.links| >= 2 && Recv(g, i, msg).Ok?
    ensures Unflagged(Recv(g, i, msg).group.links)
  {}

  lemma UnflaggedStep(s: System, step: Step, c: nat)
    requires AllSteady(s) && Enabled(s, step) && !step.Accept? && step.c == c
    requires c < |s.conns| && Unflagged(s.conns[c].g.links)
    ensures c < |Next(s, step).conns| && Unflagged(Next(s, step).conns[c].g.links)
  {
    ConnStep(s, step);
    Picked(s, c);
    var k := s.conns[c];
    hide Steady, AllSteady;
    if step.Receive? {
      var msg := Some(k.socks[step.i].rsps[0]);
      if Recv(k.g, step.i, msg).Ok? { RecvUnflagged(k.g, step.i, msg); }
      hide Recv, Unflagged;
    } else if step.ReceiveFails? {
      RecvUnflagged(k.g, step.i, None);
      hide Recv, Unflagged;
    } else if step.Request? {
      AdmitUnflagged(k.g, Op(c, |k.admitted|, step.cmd));
      hide Admit, Unflagged;
    }
  }

  lemma {:induction false} InnerFlags(s: System, steps: seq<Step>, c: nat)
    requires Init(s) && Run(s, steps) && c < |Final(s, steps).conns| && CleanAccepts(steps)
    ensures Unflagged(Final(s, steps).conns[c].g.links)
  {
    if steps != [] {
      var init, step := steps[..|steps| - 1], steps[|steps| - 1];
      RunSteady(s, init);
      var f := Final(s, init);
      hide Enabled, AllSteady, Unflagged;
      if c < |f.conns| {
        InnerFlags(s, init, c);
        if step.Accept? || step.c != c {
          Untouched(f, step, c);
        } else {
          UnflaggedStep(f, step, c);
        }
      } else {
        ConnStep(f, step);
      }
      hide Recv, Send, Admit;
    }
  }

  // ---------------------------------------------------------------- the result

  /**
   * The fate of a response read from link `i`, in every reachable state. After a write request all
   * responses go down the chain, and the last link's to the client. After a read request the
   * master's goes to the client, the first one that the last link gives goes to the client, and
   * every other one is dropped together with its request, be it a write or a read.
   */
  lemma ResponseFate(s: System, steps: seq<Step>, c: nat, i: nat)
    requires Init(s) && Run(s, steps) && Shaped(Final(s, steps)) && Enabled(Final(s, steps), Receive(c, i))
    ensures var f := Final(s, steps);
      var k, t := f.conns[c], Next(f, Receive(c, i));
      && k.admitted != [] && !t.aborted && c < |t.conns|
      && Met(k.g, t.conns[c].g, i, k.socks[i].rsps[0],
             FateOf(Latest(k), i, f.n, if i == f.n then NoneSince(steps, c, i) else k.g.links[i].tail))
      && (CleanAccepts(steps) && 0 < i < f.n ==> !k.g.links[i].tail)
  {
    hide Final, Run, NoneSince;
    RunSteady(s, steps);
    TailFlag(s, steps, c);
    var f := Final(s, steps);
    Picked(f, c);
    var k := f.conns[c];
    MeetsFate(k, f.n, i, k.socks[i].rsps[0]);
    if CleanAccepts(steps) { InnerFlags(s, steps, c); }
    hide Steady, AllSteady, Recv, Met, CleanAccepts;
  }
}
