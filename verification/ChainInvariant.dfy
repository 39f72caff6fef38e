/** Every step of a disciplined run keeps the per-client invariant of the client that takes it. */
module ChainInvariant {
  import opened KeyValue
  import opened Chain
  import opened ChainConservation
  import opened Wrappers

  /** Executed prefixes stay executed prefixes while nothing is executed. */
  lemma AppliedKept(admitted: seq<Op>, given: nat, links: seq<Link>, socks: seq<Socket>,
                    admitted': seq<Op>, given': nat, links': seq<Link>, socks': seq<Socket>,
                    c: nat, datalets: seq<Datalet>)
    requires Applied(admitted, given, links, socks, c, datalets)
    requires |links'| == |socks'| == |datalets| && admitted <= admitted'
    requires forall i :: 0 <= i < |datalets| ==>
               Reached(links', socks', given', i) == Reached(links, socks, given, i)
    ensures Applied(admitted', given', links', socks', c, datalets)
  {
    forall i | 0 <= i < |datalets|
      ensures AppliedAt(admitted', Reached(links', socks', given', i), c, datalets[i].log)
    {
      var r := Reached(links, socks, given, i);
      assert AppliedAt(admitted, r, c, datalets[i].log);
      assert admitted'[..r] == admitted[..r];
    }
  }

  // ---------------------------------------------------------------- a request arrives

  function Requested(k: Conn, op: Op): Conn
    requires |k.g.links| >= 2
  {
    k.(g := Admit(k.g, op), admitted := k.admitted + [op])
  }

  lemma WriteFlight(g: Group, op: Op)
    requires |g.links| >= 2 && op.cmd.Set?
    ensures var links' := Admit(g, op).links;
      && |links'| == |g.links|
      && Flight(links') == Flight(g.links) + [op]
      && (forall j :: 1 <= j <= |links'| ==> links'[j..] == g.links[j..])
      && (forall j :: 0 <= j < |links'| ==> links'[j].omsg == g.links[j].omsg && links'[j].error == g.links[j].error)
      && links'[0].fwd
  {
    var links' := Admit(g, op).links;
    assert links'[1..] == g.links[1..];
    assert Held(links'[0]) == Held(g.links[0]) + [op];
    Assoc(Flight(g.links[1..]), Held(g.links[0]), [op]);
  }

  lemma WriteModed(links: seq<Link>, links': seq<Link>, op: Op)
    requires Moded(links) && op.cmd.Set? && |links'| == |links| && links'[0].fwd
    requires Flight(links') == Flight(links) + [op] && links'[|links| - 1] == links[|links| - 1]
    ensures Moded(links')
  {
    hide Flight, Held;
    var f := Flight(links);
    if !AllWrites(f) {
      assert (f + [op])[1..] == f[1..] + [op];
    }
  }

  lemma WriteRequested(k: Conn, c: nat, datalets: seq<Datalet>, op: Op)
    requires ConnInv(k, c, datalets)
    requires op.client == c && op.seqno == |k.admitted| && op.cmd.Set?
    ensures ConnInv(Requested(k, op), c, datalets)
  {
    hide Wired, Applied, TailApplied, Recorded, Numbered, Healthy, Flight, Moded;
    var k' := Requested(k, op);
    WriteFlight(k.g, op);
    assert k'.g.links[|datalets| - 1] == k.g.links[|datalets| - 1];
    WriteModed(k.g.links, k'.g.links, op);
    WiredSame(k.g.links, k'.g.links, k.socks);
    assert k'.admitted[|Given(k)|..] == k.admitted[|Given(k)|..] + [op];
    AppliedKept(k.admitted, |Given(k)|, k.g.links, k.socks,
                k'.admitted, |Given(k)|, k'.g.links, k.socks, c, datalets);
    RequestKeeps(k, k', c, datalets, op);
  }

  /** The parts of the invariant that only see more requests being admitted. */
  lemma RequestKeeps(k: Conn, k': Conn, c: nat, datalets: seq<Datalet>, op: Op)
    requires ConnInv(k, c, datalets) && ShapedConn(k', |datalets| - 1)
    requires op.client == c && op.seqno == |k.admitted| && k'.admitted == k.admitted + [op]
    requires k'.replied == k.replied && k'.g.client == k.g.client && k'.socks == k.socks
    requires forall j :: 0 <= j < |datalets| ==>
      k'.g.links[j].omsg == k.g.links[j].omsg && k'.g.links[j].error == k.g.links[j].error
    ensures var t := |datalets| - 1;
      && Healthy(k'.g)
      && Numbered(k'.admitted, c)
      && TailApplied(k'.admitted, |Given(k')| + |k'.socks[t].rsps|, c, datalets[t].log)
      && Recorded(k'.admitted, Given(k'), datalets[t].log)
  {
    hide Wired, Conserved, Moded, Applied;
    var r := |Given(k)| + |k.socks[|datalets| - 1].rsps|;
    assert k'.admitted[..r] == k.admitted[..r];
  }

  lemma WiredSame(links: seq<Link>, links': seq<Link>, socks: seq<Socket>)
    requires Wired(links, socks) && |links'| == |links|
    requires forall j :: 0 <= j < |links| ==> links'[j].omsg == links[j].omsg
    ensures Wired(links', socks)
  {
    forall i | 0 <= i < |links| ensures WiredAt(links'[i], socks[i]) {
      assert WiredAt(links[i], socks[i]);
    }
  }

  lemma EmptyFlight(links: seq<Link>, j: nat)
    requires Flight(links) == [] && j <= |links|
    ensures Flight(links[j..]) == []
  {
    FlightPrefix(links, j);
  }

  /** A read enters an empty chain at its tail. */
  lemma ReadFlight(g: Group, op: Op)
    requires |g.links| >= 2 && Flight(g.links) == [] && op.cmd.Get?
    ensures var t := |g.links| - 1;
      var links' := Admit(g, op).links;
      && |links'| == |g.links|
      && links'[t].omsg == [] && links'[t].imsg == [op] && links'[t].tail && !links'[0].fwd
      && (forall i :: 0 <= i <= t ==> links'[i].omsg == g.links[i].omsg == [] && links'[i].error == g.links[i].error)
      && (forall j :: 0 <= j <= t ==> Flight(links'[j..]) == [op])
      && links'[t + 1..] == []
      && Flight(links') == [op]
  {
    hide Flight;
    FlightSize(g.links);
    var links' := Admit(g, op).links;
    assert forall i :: 0 <= i < |g.links| ==> Held(g.links[i]) == [] ==> g.links[i].omsg == [] && g.links[i].imsg == [];
    forall j | 0 <= j < |links'| ensures Flight(links'[j..]) == [op] {
      LoneFlight(links', op, j);
    }
    assert links'[0..] == links';
  }

  lemma LoneFlight(links: seq<Link>, op: Op, j: nat)
    requires j < |links|
    requires links[|links| - 1].omsg == [] && links[|links| - 1].imsg == [op]
    requires forall i :: 0 <= i < |links| - 1 ==> links[i].omsg == [] && links[i].imsg == []
    ensures Flight(links[j..]) == [op]
  {
    hide Flight;
    FlightEnd(links, j);
    FlightSize(links[j..|links| - 1]);
  }

  lemma ReadApplied(k: Conn, c: nat, datalets: seq<Datalet>, op: Op)
    requires |datalets| >= 2 && ShapedConn(k, |datalets| - 1) && op.cmd.Get?
    requires Applied(k.admitted, |Given(k)|, k.g.links, k.socks, c, datalets)
    requires Wired(k.g.links, k.socks)
    requires Flight(k.g.links) == [] && |Given(k)| == |k.admitted|
    ensures Applied(k.admitted + [op], |Given(k)|, Admit(k.g, op).links, k.socks, c, datalets)
  {
    hide Writes, Flight, Wired, Ops;
    ReadFlight(k.g, op);
    var links' := Admit(k.g, op).links;
    var a, n := k.admitted, |k.admitted|;
    forall i | 0 <= i < |datalets|
      ensures AppliedAt(a + [op], Reached(links', k.socks, n, i), c, datalets[i].log)
    {
      EmptyFlight(k.g.links, i + 1);
      WiredPick(k.g.links, k.socks, i);
      assert AppliedAt(a, Reached(k.g.links, k.socks, n, i), c, datalets[i].log);
      ReadCounts(a, op, c);
    }
  }

  lemma ReadCounts(a: seq<Op>, op: Op, c: nat)
    requires op.cmd.Get?
    ensures a[..|a|] == a
    ensures Writes((a + [op])[..|a|], c) == Writes(a, c) == Writes((a + [op])[..|a| + 1], c)
  {
    assert (a + [op])[..|a|] == a && (a + [op])[..|a| + 1] == a + [op];
    WritesStep(a, op, c);
  }

  lemma ReadRequested(k: Conn, c: nat, datalets: seq<Datalet>, op: Op)
    requires ConnInv(k, c, datalets) && |k.replied| == |k.admitted|
    requires op.client == c && op.seqno == |k.admitted| && op.cmd.Get?
    ensures ConnInv(Requested(k, op), c, datalets)
  {
    hide Wired, Applied, TailApplied, Recorded, Numbered, Healthy, Flight;
    var k' := Requested(k, op);
    assert Flight(k.g.links) == [];
    ReadFlight(k.g, op);
    WiredSame(k.g.links, k'.g.links, k.socks);
    ReadApplied(k, c, datalets, op);
    RequestKeeps(k, k', c, datalets, op);
    assert k'.admitted[|Given(k)|..] == [op];
  }

  // ---------------------------------------------------------------- a request is sent

  function OnWire(l: Link, sock: Socket): Socket {
    sock.(wire := sock.wire + l.imsg[..if l.imsg == [] then 0 else 1])
  }

  function Sent(k: Conn, i: nat): Conn
    requires i < |k.g.links| && i < |k.socks|
  {
    k.(g := k.g.(links := k.g.links[i := Send(k.g.links[i], true)]),
       socks := k.socks[i := OnWire(k.g.links[i], k.socks[i])])
  }

  lemma SentLink(l: Link, sock: Socket)
    requires WiredAt(l, sock)
    ensures WiredAt(Send(l, true), OnWire(l, sock))
    ensures Held(Send(l, true)) == Held(l)
    ensures l.omsg <= Send(l, true).omsg
  {
    if l.imsg != [] {
      var r := |sock.rsps|;
      assert (l.omsg + [l.imsg[0]])[r..] == l.omsg[r..] + [l.imsg[0]];
      assert l.imsg == [l.imsg[0]] + l.imsg[1..];
    }
  }

  lemma WiredAfter(links: seq<Link>, socks: seq<Socket>, links': seq<Link>, i: nat, sock: Socket)
    requires Wired(links, socks) && |links'| == |links| && i < |links|
    requires WiredAt(links'[i], sock)
    requires forall j :: 0 <= j < |links| && j != i ==> links'[j].omsg == links[j].omsg
    ensures Wired(links', socks[i := sock])
  {
    forall j | 0 <= j < |links| ensures WiredAt(links'[j], socks[i := sock][j]) {
      assert WiredAt(links[j], socks[j]);
    }
  }

  lemma WiredPick(links: seq<Link>, socks: seq<Socket>, i: nat)
    requires Wired(links, socks) && i < |links|
    ensures WiredAt(links[i], socks[i])
  {}

  lemma SentFlight(links: seq<Link>, socks: seq<Socket>, i: nat)
    requires Wired(links, socks) && i < |links|
    ensures var links' := links[i := Send(links[i], true)];
      && Flight(links') == Flight(links)
      && (forall j :: 0 <= j <= |links| ==> Flight(links'[j..]) == Flight(links[j..]))
      && Wired(links', socks[i := OnWire(links[i], socks[i])])
  {
    hide Flight, Held, Send, WiredAt, OnWire;
    assert WiredAt(links[i], socks[i]);
    SentLink(links[i], socks[i]);
    FlightKept(links, i, Send(links[i], true));
    WiredAfter(links, socks, links[i := Send(links[i], true)], i, OnWire(links[i], socks[i]));
  }

  lemma SentModed(links: seq<Link>, i: nat)
    requires Moded(links) && i < |links|
    ensures Moded(links[i := Send(links[i], true)])
  {
    hide Flight, Held;
    var l := links[i];
    SentLink(l, Socket(l.omsg, []));
    FlightKept(links, i, Send(l, true));
  }

  lemma RequestSent(k: Conn, c: nat, datalets: seq<Datalet>, i: nat)
    requires ConnInv(k, c, datalets) && i < |datalets|
    ensures ConnInv(Sent(k, i), c, datalets)
  {
    hide Wired, WiredAt, Applied, TailApplied, Numbered, Moded, Recorded, Flight, Held;
    var k', t := Sent(k, i), |datalets| - 1;
    WiredPick(k.g.links, k.socks, i);
    SentFlight(k.g.links, k.socks, i);
    SentModed(k.g.links, i);
    SentLink(k.g.links[i], k.socks[i]);
    AppliedKept(k.admitted, |Given(k)|, k.g.links, k.socks,
                k.admitted, |Given(k)|, k'.g.links, k'.socks, c, datalets);
    RecordedMore(k.g.links[t].omsg, k'.g.links[t].omsg, k.socks[t].rsps, datalets[t].log);
  }

  lemma RecordedMore(ops: seq<Op>, ops': seq<Op>, replies: seq<Reply>, log: seq<Entry>)
    requires Recorded(ops, replies, log) && ops <= ops'
    ensures Recorded(ops', replies, log)
  {
    assert forall j :: 0 <= j < |replies| ==> ops'[j] == ops[j];
  }

  // ---------------------------------------------------------------- a datalet executes

  function Executed(socks: seq<Socket>, i: nat, reply: Reply): seq<Socket>
    requires i < |socks| && socks[i].wire != []
  {
    socks[i := Socket(socks[i].wire[1..], socks[i].rsps + [reply])]
  }

  function Logged(datalets: seq<Datalet>, i: nat, op: Op): seq<Datalet>
    requires i < |datalets|
  {
    var d := datalets[i];
    datalets[i := Datalet(Store(d.kv, op.cmd), d.log + [Entry(op, Answer(d.kv, op.cmd))])]
  }

  /** The next write on the wire of link `i` is the first request datalet `i` has not reached. */
  lemma WireIsNext(admitted: seq<Op>, given: nat, links: seq<Link>, socks: seq<Socket>, i: nat)
    requires i < |links| && Wired(links, socks) && Conserved(admitted, given, links)
    requires socks[i].wire != []
    ensures var r := Reached(links, socks, given, i);
      r < |admitted| && admitted[r] == socks[i].wire[0]
    ensures |socks[i].rsps| < |links[i].omsg| && links[i].omsg[|socks[i].rsps|] == socks[i].wire[0]
  {
    hide Flight;
    FlightAt(links, i);
    assert WiredAt(links[i], socks[i]);
    var f, r := Flight(links), |socks[i].rsps|;
    var ahead := |Flight(links[i + 1..])|;
    assert f[ahead + r] == links[i].omsg[r] == socks[i].wire[0];
    assert admitted[given..][ahead + r] == admitted[given + ahead + r];
  }

  lemma ExecutedApplied(admitted: seq<Op>, given: nat, links: seq<Link>, socks: seq<Socket>,
                        c: nat, datalets: seq<Datalet>, i: nat, op: Op)
    requires Applied(admitted, given, links, socks, c, datalets) && i < |datalets|
    requires socks[i].wire != [] && op == socks[i].wire[0] && op.client == c
    requires var r := Reached(links, socks, given, i); r < |admitted| && admitted[r] == op
    ensures Applied(admitted, given, links, Executed(socks, i, Answer(datalets[i].kv, op.cmd)), c,
                    Logged(datalets, i, op))
  {
    hide Flight, Writes, Ops;
    var e := Entry(op, Answer(datalets[i].kv, op.cmd));
    var after, socks' := Logged(datalets, i, op), Executed(socks, i, e.reply);
    forall j | 0 <= j < |datalets|
      ensures AppliedAt(admitted, Reached(links, socks', given, j), c, after[j].log)
    {
      var r := Reached(links, socks, given, j);
      assert AppliedAt(admitted, r, c, datalets[j].log);
      if j == i {
        ExecutedHere(admitted, r, c, datalets[i].log, e);
      }
    }
  }

  lemma ExecutedHere(admitted: seq<Op>, r: nat, c: nat, log: seq<Entry>, e: Entry)
    requires AppliedAt(admitted, r, c, log)
    requires r < |admitted| && admitted[r] == e.op
    ensures AppliedAt(admitted, r + 1, c, log + [e])
  {
    hide Writes, Ops;
    OpsStep(log, e);
    WritesStep(Ops(log), e.op, c);
    WritesStep(admitted[..r], e.op, c);
    assert admitted[..r + 1] == admitted[..r] + [e.op];
  }

  lemma ExecutedTail(admitted: seq<Op>, r: nat, c: nat, log: seq<Entry>, e: Entry)
    requires TailApplied(admitted, r, c, log)
    requires r < |admitted| && admitted[r] == e.op && e.op.client == c
    ensures TailApplied(admitted, r + 1, c, log + [e])
  {
    hide From, Ops;
    OpsStep(log, e);
    FromStep(Ops(log), e.op, c);
    assert admitted[..r + 1] == admitted[..r] + [e.op];
  }

  lemma ExecutedWired(l: Link, sock: Socket, reply: Reply)
    requires WiredAt(l, sock) && sock.wire != []
    ensures WiredAt(l, Socket(sock.wire[1..], sock.rsps + [reply]))
  {
    assert l.omsg[|sock.rsps| + 1..] == l.omsg[|sock.rsps|..][1..];
  }

  lemma ExecutedRecorded(ops: seq<Op>, replies: seq<Reply>, log: seq<Entry>, e: Entry)
    requires Recorded(ops, replies, log) && |replies| < |ops| && ops[|replies|] == e.op
    ensures Recorded(ops, replies + [e.reply], log + [e])
  {
    RecordedGrows(ops, replies, log, log + [e]);
  }

  lemma Owned(admitted: seq<Op>, c: nat, j: nat)
    requires Numbered(admitted, c) && j < |admitted|
    ensures admitted[j].client == c && admitted[j].seqno == j && admitted[j] in admitted
  {}

  lemma TailReached(links: seq<Link>, socks: seq<Socket>, given: nat, t: nat)
    requires t == |links| - 1 && |links| == |socks|
    ensures Reached(links, socks, given, t) == given + |socks[t].rsps|
  {
    assert links[t + 1..] == [];
  }

  lemma RecordedGrows(ops: seq<Op>, replies: seq<Reply>, log: seq<Entry>, log': seq<Entry>)
    requires Recorded(ops, replies, log) && log <= log'
    ensures Recorded(ops, replies, log')
  {
    assert forall x :: x in log ==> x in log';
  }

  /** What the tail has recorded for the client still holds once datalet `i` executes `e.op`. */
  lemma TailAfter(k: Conn, c: nat, datalets: seq<Datalet>, i: nat, e: Entry)
    requires |datalets| >= 2 && i < |datalets| && ShapedConn(k, |datalets| - 1)
    requires k.socks[i].wire != [] && e.op.client == c && e.reply == Answer(datalets[i].kv, e.op.cmd)
    requires var t := |datalets| - 1;
      && TailApplied(k.admitted, |Given(k)| + |k.socks[t].rsps|, c, datalets[t].log)
      && Recorded(k.admitted, Given(k), datalets[t].log)
      && Recorded(k.g.links[t].omsg, k.socks[t].rsps, datalets[t].log)
    requires var r := Reached(k.g.links, k.socks, |Given(k)|, i);
      r < |k.admitted| && k.admitted[r] == e.op
    requires |k.socks[i].rsps| < |k.g.links[i].omsg| && k.g.links[i].omsg[|k.socks[i].rsps|] == e.op
    ensures var t := |datalets| - 1;
      var socks', log := Executed(k.socks, i, e.reply), Logged(datalets, i, e.op)[t].log;
      && TailApplied(k.admitted, |Given(k)| + |socks'[t].rsps|, c, log)
      && Recorded(k.admitted, Given(k), log)
      && Recorded(k.g.links[t].omsg, socks'[t].rsps, log)
  {
    hide TailApplied, Recorded, Reached;
    var t := |datalets| - 1;
    var log' := Logged(datalets, i, e.op)[t].log;
    RecordedGrows(k.admitted, Given(k), datalets[t].log, log');
    RecordedGrows(k.g.links[t].omsg, k.socks[t].rsps, datalets[t].log, log');
    if i == t {
      TailReached(k.g.links, k.socks, |Given(k)|, t);
      ExecutedTail(k.admitted, |Given(k)| + |k.socks[t].rsps|, c, datalets[t].log, e);
      ExecutedRecorded(k.g.links[t].omsg, k.socks[t].rsps, datalets[t].log, e);
    }
  }

  lemma RequestExecuted(k: Conn, c: nat, datalets: seq<Datalet>, i: nat)
    requires ConnInv(k, c, datalets) && i < |datalets| && k.socks[i].wire != []
    ensures var op := k.socks[i].wire[0];
      && op.client == c && op in k.admitted
      && ConnInv(k.(socks := Executed(k.socks, i, Answer(datalets[i].kv, op.cmd))), c, Logged(datalets, i, op))
  {
    hide Wired, WiredAt, Applied, TailApplied, Recorded, Numbered, Moded, Conserved, Healthy, Reached, Flight;
    var op := k.socks[i].wire[0];
    var e, given := Entry(op, Answer(datalets[i].kv, op.cmd)), |Given(k)|;
    WireIsNext(k.admitted, given, k.g.links, k.socks, i);
    Owned(k.admitted, c, Reached(k.g.links, k.socks, given, i));
    ExecutedApplied(k.admitted, given, k.g.links, k.socks, c, datalets, i, op);
    WiredPick(k.g.links, k.socks, i);
    ExecutedWired(k.g.links[i], k.socks[i], e.reply);
    WiredAfter(k.g.links, k.socks, k.g.links, i, Executed(k.socks, i, e.reply)[i]);
    TailAfter(k, c, datalets, i, e);
  }

  /** A step of one client leaves the invariant of every other client alone. */
  lemma OthersExecuted(k: Conn, c: nat, datalets: seq<Datalet>, i: nat, op: Op)
    requires ConnInv(k, c, datalets) && i < |datalets| && op.client != c
    ensures ConnInv(k, c, Logged(datalets, i, op))
  {
    hide Wired, Applied, Recorded, Numbered, Moded, Conserved, Healthy, TailApplied;
    var after, t := Logged(datalets, i, op), |datalets| - 1;
    OthersApplied(k.admitted, |Given(k)|, k.g.links, k.socks, c, datalets, i, op);
    OthersTail(k.admitted, |Given(k)| + |k.socks[t].rsps|, c, datalets[t].log,
               Entry(op, Answer(datalets[i].kv, op.cmd)));
    RecordedGrows(k.admitted, Given(k), datalets[t].log, after[t].log);
    RecordedGrows(k.g.links[t].omsg, k.socks[t].rsps, datalets[t].log, after[t].log);
  }

  lemma OthersTail(admitted: seq<Op>, r: nat, c: nat, log: seq<Entry>, e: Entry)
    requires TailApplied(admitted, r, c, log) && e.op.client != c
    ensures TailApplied(admitted, r, c, log + [e])
  {
    hide From, Ops;
    OpsStep(log, e);
    FromStep(Ops(log), e.op, c);
  }

  lemma OthersApplied(admitted: seq<Op>, given: nat, links: seq<Link>, socks: seq<Socket>,
                      c: nat, datalets: seq<Datalet>, i: nat, op: Op)
    requires Applied(admitted, given, links, socks, c, datalets) && i < |datalets| && op.client != c
    ensures Applied(admitted, given, links, socks, c, Logged(datalets, i, op))
  {
    hide Flight, Writes, Ops;
    var e, after := Entry(op, Answer(datalets[i].kv, op.cmd)), Logged(datalets, i, op);
    forall j | 0 <= j < |datalets|
      ensures AppliedAt(admitted, Reached(links, socks, given, j), c, after[j].log)
    {
      assert AppliedAt(admitted, Reached(links, socks, given, j), c, datalets[j].log);
      if j == i {
        OpsStep(datalets[i].log, e);
        WritesStep(Ops(datalets[i].log), op, c);
      }
    }
  }

  // ---------------------------------------------------------------- a response is read

  function Read(socks: seq<Socket>, i: nat): seq<Socket>
    requires i < |socks| && socks[i].rsps != []
  {
    socks[i := socks[i].(rsps := socks[i].rsps[1..])]
  }

  lemma HeldInFlight(links: seq<Link>, i: nat)
    requires i < |links| && links[i].omsg != []
    ensures var p := |Flight(links[i + 1..])|;
      p < |Flight(links)| && Flight(links)[p] == links[i].omsg[0]
  {
    hide Flight;
    FlightAt(links, i);
    assert Held(links[i])[0] == links[i].omsg[0];
  }

  /** What the tail holds is ahead of everything else. */
  lemma TailFirst(links: seq<Link>, i: nat)
    requires i < |links| - 1
    ensures |Held(links[|links| - 1])| <= |Flight(links[i + 1..])|
  {
    FlightEnd(links, i + 1);
  }

  /** Only the tail ever holds a read, and behind it everything is on its way down. */
  lemma BeforeTail(links: seq<Link>, i: nat)
    requires Moded(links) && i < |links| - 1 && links[i].omsg != []
    ensures links[0].fwd && links[i].omsg[0].cmd.Set?
  {
    hide Flight, Held;
    HeldInFlight(links, i);
    TailFirst(links, i);
    var f, p := Flight(links), |Flight(links[i + 1..])|;
    if !AllWrites(f) {
      assert f[1..][p - 1] == f[p];
    }
  }

  /** Handing a request on keeps the order, and the tail does not get emptier. */
  lemma ForwardedModed(links: seq<Link>, i: nat, r: seq<Link>)
    requires Moded(links) && Forwarded(links, i, r) && Flight(r) == Flight(links) && links[0].fwd && r[0].fwd
    ensures Moded(r)
  {
    hide Flight;
    var t := |links| - 1;
    assert i + 1 < t ==> r[t] == links[t] by {
      assert i + 1 < t ==> r[i + 2..][t - i - 2] == links[i + 2..][t - i - 2];
    }
  }

  lemma ReadWired(l: Link, sock: Socket, l': Link)
    requires WiredAt(l, sock) && sock.rsps != [] && l.omsg != [] && l'.omsg == l.omsg[1..]
    ensures WiredAt(l', sock.(rsps := sock.rsps[1..]))
  {
    assert l.omsg[1..][|sock.rsps| - 1..] == l.omsg[|sock.rsps|..];
  }

  lemma TailAhead(g: Group, i: nat, msg: Reply)
    requires i < |g.links| - 1 && g.links[i].omsg != [] && g.links[0].fwd && g.links[i].omsg[0].cmd.Set?
    ensures var out := Recv(g, i, Some(msg));
      out.Ok? && Forwarded(g.links, i, out.group.links) && out.group.links[0].fwd
  {}

  lemma ForwardedGroup(g: Group, i: nat, msg: Reply)
    requires Moded(g.links) && i < |g.links| - 1 && g.links[i].omsg != []
    ensures var out := Recv(g, i, Some(msg));
      && out.Ok? && Forwarded(g.links, i, out.group.links) && out.group.client == g.client
      && Moded(out.group.links)
      && forall j :: 0 <= j < |g.links| ==>
           && out.group.links[j].error == g.links[j].error
           && (j != i ==> out.group.links[j].omsg == g.links[j].omsg)
  {
    hide Flight, Held;
    BeforeTail(g.links, i);
    TailAhead(g, i, msg);
    var links' := Recv(g, i, Some(msg)).group.links;
    FlightForwarded(g.links, i, links');
    ForwardedModed(g.links, i, links');
  }

  lemma ResponseForwarded(k: Conn, c: nat, datalets: seq<Datalet>, i: nat)
    requires ConnInv(k, c, datalets) && i < |datalets| - 1 && k.socks[i].rsps != []
    ensures var out := Recv(k.g, i, Some(k.socks[i].rsps[0]));
      out.Ok? && ConnInv(k.(g := out.group, socks := Read(k.socks, i)), c, datalets)
  {
    hide Wired, Applied, TailApplied, Recorded, Numbered, Moded, Flight;
    WiredPick(k.g.links, k.socks, i);
    ForwardedGroup(k.g, i, k.socks[i].rsps[0]);
    var links' := Recv(k.g, i, Some(k.socks[i].rsps[0])).group.links;
    FlightForwarded(k.g.links, i, links');
    AppliedKept(k.admitted, |Given(k)|, k.g.links, k.socks,
                k.admitted, |Given(k)|, links', Read(k.socks, i), c, datalets);
    ReadWired(k.g.links[i], k.socks[i], links'[i]);
    WiredAfter(k.g.links, k.socks, links', i, Read(k.socks, i)[i]);
  }

  lemma HeldAtFront(links: seq<Link>, t: nat)
    requires t == |links| - 1 && links[t].omsg != []
    ensures Flight(links) != [] && Flight(links)[0] == links[t].omsg[0]
  {
    HeldInFlight(links, t);
    assert links[t + 1..] == [];
  }

  lemma ModedDelivered(links: seq<Link>, l: Link)
    requires Moded(links) && Delivered(links, l)
    ensures Moded(links[|links| - 1 := l])
  {
    hide Flight, Held;
    FlightDelivered(links, l);
    var f, f' := Flight(links), Flight(links[|links| - 1 := l]);
    assert forall j :: 0 <= j < |f'| ==> f'[j] == f[j + 1];
  }

  /** The tail's response reaches the client, whether it answers a write or a read. */
  lemma TailDelivers(g: Group, t: nat, msg: Reply)
    requires Moded(g.links) && t == |g.links| - 1 && g.links[t].omsg != []
    ensures var out := Recv(g, t, Some(msg));
      && out.Ok?
      && out.group.client == PushReply(g.client, msg)
      && out.group.links == g.links[t := out.group.links[t]]
      && out.group.links[t] == g.links[t].(omsg := g.links[t].omsg[1..], tail := out.group.links[t].tail)
      && Moded(out.group.links)
  {
    hide Flight, Held;
    HeldAtFront(g.links, t);
    var l := Recv(g, t, Some(msg)).group.links[t];
    ModedDelivered(g.links, l);
  }

  lemma DeliveredApplied(k: Conn, c: nat, datalets: seq<Datalet>, t: nat, l: Link)
    requires ShapedConn(k, t) && |datalets| == t + 1 && k.socks[t].rsps != []
    requires Applied(k.admitted, |Given(k)|, k.g.links, k.socks, c, datalets)
    requires k.g.links[t].omsg != [] && l.omsg == k.g.links[t].omsg[1..] && l.imsg == k.g.links[t].imsg
    ensures Applied(k.admitted, |Given(k)| + 1, k.g.links[t := l], Read(k.socks, t), c, datalets)
  {
    hide Flight;
    FlightDelivered(k.g.links, l);
    assert k.g.links[t + 1..] == [] && k.g.links[t := l][t + 1..] == [];
    AppliedKept(k.admitted, |Given(k)|, k.g.links, k.socks,
                k.admitted, |Given(k)| + 1, k.g.links[t := l], Read(k.socks, t), c, datalets);
  }

  /** The request the tail answers next is the oldest unanswered one. */
  lemma OldestAnswered(admitted: seq<Op>, given: nat, links: seq<Link>, t: nat, l: Link)
    requires Conserved(admitted, given, links) && t == |links| - 1 && links[t].omsg != []
    requires l.omsg == links[t].omsg[1..] && l.imsg == links[t].imsg
    ensures given < |admitted| && admitted[given] == links[t].omsg[0]
    ensures Conserved(admitted, given + 1, links[t := l])
  {
    hide Flight;
    FlightDelivered(links, l);
    assert Flight(links)[1..] == Flight(links[t := l]);
    assert admitted[given..][1..] == admitted[given + 1..];
    assert admitted[given] == admitted[given..][0];
  }

  lemma ResponseDelivered(k: Conn, c: nat, datalets: seq<Datalet>, t: nat)
    requires ConnInv(k, c, datalets) && t == |datalets| - 1 && k.socks[t].rsps != []
    ensures var out := Recv(k.g, t, Some(k.socks[t].rsps[0]));
      out.Ok? && ConnInv(k.(g := out.group, socks := Read(k.socks, t)), c, datalets)
  {
    hide Wired, Applied, TailApplied, Recorded, Numbered, Moded, Conserved, Flight, Recv;
    var msg := k.socks[t].rsps[0];
    WiredPick(k.g.links, k.socks, t);
    TailDelivers(k.g, t, msg);
    var l := Recv(k.g, t, Some(msg)).group.links[t];
    OldestAnswered(k.admitted, |Given(k)|, k.g.links, t, l);
    DeliveredApplied(k, c, datalets, t, l);
    ReadWired(k.g.links[t], k.socks[t], l);
    WiredAfter(k.g.links, k.socks, k.g.links[t := l], t, Read(k.socks, t)[t]);
    var k' := k.(g := Recv(k.g, t, Some(msg)).group, socks := Read(k.socks, t));
    assert Given(k') == Given(k) + [msg];
    DeliveredRecorded(k.admitted, Given(k), k.g.links[t].omsg, k.socks[t].rsps, datalets[t].log);
  }

  lemma DeliveredRecorded(admitted: seq<Op>, given: seq<Reply>, omsg: seq<Op>, rsps: seq<Reply>, log: seq<Entry>)
    requires Recorded(admitted, given, log) && Recorded(omsg, rsps, log)
    requires rsps != [] && omsg != [] && |given| < |admitted| && admitted[|given|] == omsg[0]
    ensures Recorded(admitted, given + [rsps[0]], log)
    ensures Recorded(omsg[1..], rsps[1..], log)
  {
    assert forall j :: 0 <= j < |rsps| - 1 ==> omsg[1..][j] == omsg[j + 1] && rsps[1..][j] == rsps[j + 1];
  }

  // ---------------------------------------------------------------- the client is answered

  function Responded(k: Conn): Conn {
    var q := k.g.client.imsg;
    k.(g := k.g.(client := SendReply(k.g.client, true)),
       replied := k.replied + q[..if q == [] then 0 else 1])
  }

  lemma ReplySent(k: Conn, c: nat, datalets: seq<Datalet>)
    requires ConnInv(k, c, datalets)
    ensures ConnInv(Responded(k), c, datalets)
  {
    hide Wired, Applied, TailApplied, Recorded, Numbered, Moded, Conserved;
    assert Given(Responded(k)) == Given(k);
  }

  lemma FreshConn(g: Group, c: nat, datalets: seq<Datalet>)
    requires |datalets| >= 2 && Fresh(g, |datalets| - 1)
    requires forall i :: 0 <= i < |datalets| ==> From(Ops(datalets[i].log), c) == []
    ensures ConnInv(Conn(g, Idle(|datalets| - 1), [], []), c, datalets)
  {
    hide Flight, From, Ops;
    var socks := Idle(|datalets| - 1);
    FlightSize(g.links);
    forall i | 0 <= i < |datalets|
      ensures AppliedAt([], Reached(g.links, socks, 0, i), c, datalets[i].log)
      ensures WiredAt(g.links[i], socks[i])
    {
      EmptyFlight(g.links, i + 1);
      NoWrites(Ops(datalets[i].log), c);
    }
    assert From(Ops(datalets[|datalets| - 1].log), c) == [];
  }

  lemma {:induction false} NoWrites(ops: seq<Op>, c: nat)
    requires From(ops, c) == []
    ensures Writes(ops, c) == []
  {
    if ops != [] {
      NoWrites(ops[..|ops| - 1], c);
    }
  }
}
