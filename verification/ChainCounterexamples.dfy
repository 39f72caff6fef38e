/** Runs that show what the discipline and the single writer are for, and when replicas converge. */
module ChainCounterexamples {
  import opened KeyValue
  import opened Chain
  import opened ChainConservation
  import opened ChainSafety
  import opened ChainTheorems
  import opened ChainResponses
  import opened ChainRuns
  import opened Wrappers

  /** One more step of a run that need not be disciplined, with no failure. */
  lemma Then(s: System, steps: seq<Step>, step: Step) returns (more: seq<Step>)
    requires Run(s, steps) && Shaped(Final(s, steps)) && Enabled(Final(s, steps), step)
    requires Working(steps) && Working([step])
    ensures Run(s, more) && Final(s, more) == Next(Final(s, steps), step) && Working(more)
  {
    hide Run, Final, Enabled, Next, Shaped;
    Extend(s, steps, step);
    more := steps + [step];
  }

  // ---------------------------------------------------------------- a read during a write

  lemma {:induction false} OneInFlight(links: seq<Link>, j: nat, op: Op)
    requires j < |links| && Held(links[j]) == [op]
    requires forall i :: 0 <= i < |links| && i != j ==> Held(links[i]) == []
    ensures Flight(links) == [op]
  {
    if j == 0 {
      AllEmpty(links[1..]);
    } else {
      OneInFlight(links[1..], j - 1, op);
    }
  }

  /** The client's write has been executed at link `i`, and a read waits at the last link. */
  ghost predicate ReadQueued(k: Conn, n: nat, op: Op, get: Op, i: nat) {
    && Sound(k, n) && i < n && get.cmd.Get? && !k.g.links[0].fwd
    && k.admitted == [op, get] && k.replied == [] && k.g.client.imsg == []
    && At(k, i, Executed, op)
    && k.g.links[n].imsg == [get] && k.g.links[n].omsg == []
    && forall j :: 0 <= j < n && j != i ==> Clear(k.g.links[j], k.socks[j])
  }

  lemma AskToRead(s: System, c: nat, op: Op, get: Op, i: nat)
    requires Carrying(s, c, op, i, Executed) && i < s.n && get.cmd.Get? && get == Op(c, 1, get.cmd)
    ensures Enabled(s, Request(c, get.cmd))
    ensures var t := Next(s, Request(c, get.cmd));
      && Shaped(t) && t.n == s.n && !t.aborted && t.datalets == s.datalets
      && c < |t.conns| == |s.conns| && ReadQueued(t.conns[c], t.n, op, get, i)
  {
    NextShaped(s, Request(c, get.cmd));
  }

  lemma LosesWrite(k: Conn, n: nat, op: Op, get: Op, i: nat)
    requires ReadQueued(k, n, op, get, i)
    ensures var r := Recv(k.g, i, Some(Stored));
      && r.Ok? && r.group.client.imsg == (if i == 0 then [Stored] else [])
      && |r.group.links| == n + 1 && Flight(r.group.links) == [get]
  {
    var links := Recv(k.g, i, Some(Stored)).group.links;
    assert forall j :: 0 <= j < n ==> Held(links[j]) == [];
    OneInFlight(links, n, get);
    hide Flight;
  }

  lemma ReceiveLosing(s: System, c: nat, op: Op, get: Op, i: nat)
    requires Shaped(s) && !s.aborted && c < |s.conns| && ReadQueued(s.conns[c], s.n, op, get, i)
    ensures Enabled(s, Receive(c, i))
    ensures var t := Next(s, Receive(c, i));
      && Shaped(t) && t.n == s.n && !t.aborted && t.datalets == s.datalets && c < |t.conns| == |s.conns|
      && Lost(t.conns[c], op, get, if i == 0 then [Stored] else [])
  {
    NextShaped(s, Receive(c, i));
    LosesWrite(s.conns[c], s.n, op, get, i);
    hide Recv, Flight;
  }

  /** Only the read is still under way, and the client has these replies to its two requests. */
  ghost predicate Lost(k: Conn, op: Op, get: Op, replies: seq<Reply>) {
    k.admitted == [op, get] && Given(k) == replies && Flight(k.g.links) == [get]
  }

  /**
   * A client asks to read while its write is executed at link `i`, short of the tail. The write is
   * then in no queue any more and no later replica ever executes it. The client gets it
   * acknowledged if the link is the master's, and no answer at all if it is a slave's.
   */
  lemma ReadLosesWrite(n: nat, c: nat, key: Key, val: Val, other: Key, i: nat) returns (s: System, steps: seq<Step>)
    requires i < n
    ensures Init(s) && s.n == n && Run(s, steps) && Working(steps)
    ensures var f := Final(s, steps);
      var op, get := Op(c, 0, Set(key, val)), Op(c, 1, Get(other));
      && f.n == n && |f.datalets| == n + 1 && |f.conns| == c + 1
      && Lost(f.conns[c], op, get, if i == 0 then [Stored] else [])
      && forall j :: 0 <= j <= n ==> f.datalets[j].log == if j <= i then [Entry(op, Stored)] else []
  {
    s := Start(n);
    Started(n);
    var op, get := Op(c, 0, Set(key, val)), Op(c, 1, Get(other));
    hide Final, Run, DisciplinedRun, Init, Carrying, Lost, Working;
    steps := ExecutedAt(n, c, op, i);
    RunOf(s, steps);
    DisciplinedWorks(s, steps);
    steps := AsksTooSoon(s, steps, c, op, get, i);
  }

  lemma AsksTooSoon(s: System, steps: seq<Step>, c: nat, op: Op, get: Op, i: nat) returns (more: seq<Step>)
    requires Run(s, steps) && Working(steps) && Carrying(Final(s, steps), c, op, i, Executed)
    requires i < Final(s, steps).n && get.cmd.Get? && get == Op(c, 1, get.cmd)
    ensures Run(s, more) && Working(more)
    ensures var f, g := Final(s, steps), Final(s, more);
      && g.n == f.n && g.datalets == f.datalets && c < |g.conns| == |f.conns|
      && Lost(g.conns[c], op, get, if i == 0 then [Stored] else [])
  {
    hide Final, Run, Next, Enabled, Carries, ReadQueued, Lost;
    AskToRead(Final(s, steps), c, op, get, i);
    more := Then(s, steps, Request(c, get.cmd));
    ReceiveLosing(Final(s, more), c, op, get, i);
    more := Then(s, more, Receive(c, i));
  }

  /** A client's first request is a write, and it has just been executed at link `i`. */
  lemma ExecutedAt(n: nat, c: nat, op: Op, i: nat) returns (steps: seq<Step>)
    requires n >= 1 && i <= n && op == Op(c, 0, op.cmd) && op.cmd.Set?
    ensures DisciplinedRun(Start(n), steps) && Carrying(Final(Start(n), steps), c, op, i, Executed)
    ensures var f := Final(Start(n), steps);
      && f.n == n && |f.datalets| == n + 1 && |f.conns| == c + 1
      && forall j :: 0 <= j <= n ==> f.datalets[j].log == if j <= i then [Entry(op, Stored)] else []
  {
    var s := Start(n);
    hide Final, Run, DisciplinedRun, Next, Enabled, Unused, Carries;
    steps := Connect(n, c + 1);
    steps := Ask(s, steps, c, op);
    steps := Carry(s, steps, c, op, 0, i);
    RunOf(s, steps);
    Sends(Final(s, steps), c, op, i);
    Extend(s, steps, SendTo(c, i));
    steps := steps + [SendTo(c, i)];
    RunOf(s, steps);
    Executes(Final(s, steps), c, op, i);
    Extend(s, steps, Execute(c, i));
    steps := steps + [Execute(c, i)];
  }

  // ---------------------------------------------------------------- reads without waiting

  /** A client that only reads: what its last link queues, has sent and is owed, and what the client got. */
  datatype Reading = Reading(admitted: seq<Op>, queue: seq<Op>, sent: seq<Op>, sock: Socket, flag: bool,
                             got: seq<Reply>)

  ghost predicate Reads(k: Conn, n: nat, r: Reading) {
    && Sound(k, n) && (r.admitted != [] ==> !k.g.links[0].fwd)
    && k.admitted == r.admitted && k.replied == [] && k.g.client.imsg == r.got
    && k.g.links[n].imsg == r.queue && k.g.links[n].omsg == r.sent && k.socks[n] == r.sock
    && k.g.links[n].tail == r.flag
    && forall j :: 0 <= j < n ==> Clear(k.g.links[j], k.socks[j])
  }

  ghost predicate ReadsIn(s: System, c: nat, r: Reading) {
    Shaped(s) && !s.aborted && c + 1 == |s.conns| && Reads(s.conns[c], s.n, r)
  }

  lemma ReadAsked(s: System, c: nat, r: Reading, key: Key)
    requires ReadsIn(s, c, r)
    ensures Enabled(s, Request(c, Get(key)))
    ensures var op := Op(c, |r.admitted|, Get(key));
      ReadsIn(Next(s, Request(c, Get(key))), c,
              r.(admitted := r.admitted + [op], queue := r.queue + [op], flag := true))
  {
    NextShaped(s, Request(c, Get(key)));
  }

  lemma ReadSent(s: System, c: nat, r: Reading)
    requires ReadsIn(s, c, r) && r.queue != []
    ensures Enabled(s, SendTo(c, s.n))
    ensures ReadsIn(Next(s, SendTo(c, s.n)), c,
                    r.(queue := r.queue[1..], sent := r.sent + [r.queue[0]],
                       sock := r.sock.(wire := r.sock.wire + [r.queue[0]])))
  {
    NextShaped(s, SendTo(c, s.n));
    assert r.queue[..1] == [r.queue[0]];
  }

  lemma ReadExecuted(s: System, c: nat, r: Reading) returns (reply: Reply)
    requires ReadsIn(s, c, r) && r.sock.wire != []
    ensures Enabled(s, Execute(c, s.n))
    ensures ReadsIn(Next(s, Execute(c, s.n)), c, r.(sock := Socket(r.sock.wire[1..], r.sock.rsps + [reply])))
  {
    NextShaped(s, Execute(c, s.n));
    reply := Answer(s.datalets[s.n].kv, r.sock.wire[0].cmd);
  }

  lemma ReadAnswered(s: System, c: nat, r: Reading)
    requires ReadsIn(s, c, r) && r.sock.rsps != [] && r.sent != [] && r.admitted != []
    ensures Enabled(s, Receive(c, s.n))
    ensures ReadsIn(Next(s, Receive(c, s.n)), c,
                    r.(sent := r.sent[1..], sock := r.sock.(rsps := r.sock.rsps[1..]), flag := false,
                       got := if r.flag then r.got + [r.sock.rsps[0]] else r.got))
  {
    NextShaped(s, Receive(c, s.n));
  }

  lemma NoReads(f: System, n: nat, c: nat) returns (r: Reading)
    requires Connected(f, n, c + 1)
    ensures ReadsIn(f, c, r) && f.n == n && r == Reading([], [], [], Socket([], []), r.flag, [])
  {
    r := Reading([], [], [], Socket([], []), f.conns[c].g.links[n].tail, []);
  }

  lemma TwoAsked(n: nat, c: nat, key: Key, other: Key) returns (steps: seq<Step>)
    requires n >= 1
    ensures var x, y := Op(c, 0, Get(key)), Op(c, 1, Get(other));
      && Run(Start(n), steps) && Working(steps)
      && ReadsIn(Final(Start(n), steps), c, Reading([x, y], [x, y], [], Socket([], []), true, []))
  {
    hide Final, Run, DisciplinedRun, Next, Enabled, Reads, Connected;
    var s := Start(n);
    steps := Connect(n, c + 1);
    var r := NoReads(Final(s, steps), n, c);
    RunOf(s, steps);
    DisciplinedWorks(s, steps);
    ReadAsked(Final(s, steps), c, r, key);
    steps := Then(s, steps, Request(c, Get(key)));
    var x := Op(c, 0, Get(key));
    assert [] + [x] == [x];
    r := Reading([x], [x], [], Socket([], []), true, []);
    ReadAsked(Final(s, steps), c, r, other);
    steps := Then(s, steps, Request(c, Get(other)));
    assert [x] + [Op(c, 1, Get(other))] == [x, Op(c, 1, Get(other))];
  }

  lemma ReadRound(s: System, steps: seq<Step>, c: nat, r: Reading) returns (more: seq<Step>, reply: Reply)
    requires Run(s, steps) && ReadsIn(Final(s, steps), c, r)
    requires r.queue != [] && r.sent == [] && r.sock == Socket([], []) && Working(steps)
    ensures Run(s, more) && Working(more)
    ensures ReadsIn(Final(s, more), c, r.(queue := r.queue[1..], sent := [r.queue[0]], sock := Socket([], [reply])))
  {
    hide Final, Run, Next, Enabled, Reads;
    var f := Final(s, steps);
    var op := r.queue[0];
    ReadSent(f, c, r);
    more := Then(s, steps, SendTo(c, f.n));
    var r1 := r.(queue := r.queue[1..], sent := [op], sock := Socket([op], []));
    assert [] + [op] == [op];
    assert ReadsIn(Final(s, more), c, r1);
    reply := ReadExecuted(Final(s, more), c, r1);
    more := Then(s, more, Execute(c, Final(s, more).n));
    assert [op][1..] == [] && [] + [reply] == [reply];
  }

  /**
   * A client asks to read twice without waiting. Only the first read is ever answered, although
   * nothing is under way any more.
   */
  lemma SecondReadDropped(n: nat, c: nat, key: Key, other: Key) returns (s: System, steps: seq<Step>)
    requires n >= 1
    ensures Init(s) && s.n == n && Run(s, steps) && Working(steps)
    ensures var f := Final(s, steps);
      && |f.conns| == c + 1 && f.conns[c].admitted == [Op(c, 0, Get(key)), Op(c, 1, Get(other))]
      && |Given(f.conns[c])| == 1 && Flight(f.conns[c].g.links) == []
  {
    s := Start(n);
    Started(n);
    hide Final, Run, DisciplinedRun, Next, Enabled, Reads, Init, Flight;
    steps := TwoAsked(n, c, key, other);
    var x, y := Op(c, 0, Get(key)), Op(c, 1, Get(other));
    steps := ReadTwice(s, steps, c, x, y);
    var f := Final(s, steps);
    var got :| |got| == 1 && ReadsIn(f, c, Reading([x, y], [], [], Socket([], []), false, got));
    NothingLeft(f.conns[c], f.n, Reading([x, y], [], [], Socket([], []), false, got));
  }

  lemma ReadTwice(s: System, steps: seq<Step>, c: nat, x: Op, y: Op) returns (more: seq<Step>)
    requires Run(s, steps) && ReadsIn(Final(s, steps), c, Reading([x, y], [x, y], [], Socket([], []), true, []))
    requires Working(steps)
    ensures Run(s, more) && Working(more)
    ensures exists got :: |got| == 1 && ReadsIn(Final(s, more), c, Reading([x, y], [], [], Socket([], []), false, got))
  {
    hide Final, Run, Next, Enabled, Reads;
    var r := Reading([x, y], [x, y], [], Socket([], []), true, []);
    var reply, second;
    more, reply := ReadRound(s, steps, c, r);
    assert [x, y][1..] == [y];
    r := Reading([x, y], [y], [x], Socket([], [reply]), true, []);
    ReadAnswered(Final(s, more), c, r);
    more := Then(s, more, Receive(c, Final(s, more).n));
    assert [x][1..] == [] && [reply][1..] == [] && [] + [reply] == [reply];
    r := Reading([x, y], [y], [], Socket([], []), false, [reply]);
    more, second := ReadRound(s, more, c, r);
    assert [y][1..] == [];
    r := Reading([x, y], [], [y], Socket([], [second]), false, [reply]);
    ReadAnswered(Final(s, more), c, r);
    more := Then(s, more, Receive(c, Final(s, more).n));
    assert [second][1..] == [];
    assert ReadsIn(Final(s, more), c, Reading([x, y], [], [], Socket([], []), false, [reply]));
  }

  lemma NothingLeft(k: Conn, n: nat, r: Reading)
    requires Reads(k, n, r) && r.queue == [] && r.sent == []
    ensures k.admitted == r.admitted && Given(k) == r.got && Flight(k.g.links) == []
  {
    AllEmpty(k.g.links);
    hide Flight;
  }

  // ---------------------------------------------------------------- two writers of one key

  lemma Settled(k: Conn, n: nat)
    requires Unused(k, n) || exists op :: Through(k, n, op)
    ensures Flight(k.g.links) == []
  {
    AllEmpty(k.g.links);
  }

  /** What the writers have asked for, and nobody else anything. */
  ghost predicate Asked(s: System, x: Op, y: Op) {
    forall e :: 0 <= e < |s.conns| ==>
      s.conns[e].admitted == if e == x.client then [x] else if e == y.client then [y] else []
  }

  ghost predicate Hold(s: System, master: Kv, slaves: Kv) {
    |s.datalets| == s.n + 1 && s.datalets[0].kv == master && forall i :: 1 <= i <= s.n ==> s.datalets[i].kv == slaves
  }

  ghost predicate Quiet(s: System, c: nat, d: nat) {
    forall e :: 0 <= e < |s.conns| && e != c && e != d ==> Unused(s.conns[e], s.n)
  }

  /** The first write is in the first slave's queue, and the second client has not asked. */
  ghost predicate FirstWaits(f: System, x: Op, d: nat) {
    && Carrying(f, x.client, x, 1, Queued) && d < |f.conns| && Unused(f.conns[d], f.n)
    && Quiet(f, x.client, d) && Hold(f, map[x.cmd.key := x.cmd.val], map[])
  }

  lemma FirstAsks(n: nat, x: Op, d: nat) returns (steps: seq<Step>)
    requires n >= 1 && x.client != d && x == Op(x.client, 0, x.cmd) && x.cmd.Set?
    ensures DisciplinedRun(Start(n), steps) && FirstWaits(Final(Start(n), steps), x, d)
    ensures Final(Start(n), steps).n == n
  {
    hide Final, Run, DisciplinedRun, Unused, Carries;
    var c := x.client;
    steps := Connect(n, if c < d then d + 1 else c + 1);
    steps := Ask(Start(n), steps, c, x);
    steps := Hop(Start(n), steps, c, x, 0);
  }

  /** The first write is still there, and the second is through. */
  ghost predicate SecondThrough(f: System, x: Op, y: Op) {
    && y.cmd.Set? && Carrying(f, x.client, x, 1, Queued)
    && y.client < |f.conns| && Through(f.conns[y.client], f.n, y)
    && Quiet(f, x.client, y.client) && Hold(f, map[y.cmd.key := y.cmd.val], map[y.cmd.key := y.cmd.val])
  }

  lemma SecondOvertakes(s: System, steps: seq<Step>, x: Op, y: Op) returns (more: seq<Step>)
    requires DisciplinedRun(s, steps) && FirstWaits(Final(s, steps), x, y.client)
    requires x.client != y.client && y == Op(y.client, 0, y.cmd) && y.cmd.Set? && x.cmd.key == y.cmd.key
    ensures DisciplinedRun(s, more) && SecondThrough(Final(s, more), x, y) && Final(s, more).n == Final(s, steps).n
  {
    hide Final, Run, DisciplinedRun, Unused, Carries, Through;
    more := Ask(s, steps, y.client, y);
    more := Finish(s, more, y.client, y, 0);
  }

  lemma Ends(f: System, x: Op, y: Op)
    requires Shaped(f) && x.client < |f.conns| && y.client < |f.conns|
    requires Through(f.conns[x.client], f.n, x) && Through(f.conns[y.client], f.n, y)
    requires Quiet(f, x.client, y.client)
    ensures Quiescent(f) && Asked(f, x, y)
  {
    hide Flight;
    forall e | 0 <= e < |f.conns|
      ensures Flight(f.conns[e].g.links) == []
    {
      Settled(f.conns[e], f.n);
    }
  }

  lemma FirstFinishes(s: System, steps: seq<Step>, x: Op, y: Op) returns (more: seq<Step>)
    requires DisciplinedRun(s, steps) && SecondThrough(Final(s, steps), x, y) && Final(s, steps).n >= 1
    requires x.client != y.client && x.cmd.key == y.cmd.key && x.cmd.Set?
    ensures DisciplinedRun(s, more)
    ensures var f := Final(s, more);
      && f.n == Final(s, steps).n && Quiescent(f) && Asked(f, x, y)
      && Hold(f, map[y.cmd.key := y.cmd.val], map[x.cmd.key := x.cmd.val])
  {
    hide Final, Run, DisciplinedRun, Unused, Carries, Through, Quiescent, Asked;
    more := Finish(s, steps, x.client, x, 1);
    Ends(Final(s, more), x, y);
  }

  /**
   * Two clients write one key. The second write overtakes the first between the master and the
   * first slave, so that the master keeps the second value and every slave the first.
   */
  lemma TwoWritersDiverge(n: nat, key: Key, c: nat, a: Val, d: nat, b: Val) returns (s: System, steps: seq<Step>)
    requires n >= 1 && c != d
    ensures Init(s) && s.n == n && DisciplinedRun(s, steps)
    ensures var f := Final(s, steps);
      && f.n == n && Quiescent(f) && Asked(f, Op(c, 0, Set(key, a)), Op(d, 0, Set(key, b)))
      && Hold(f, map[key := b], map[key := a])
  {
    s := Start(n);
    Started(n);
    var x, y := Op(c, 0, Set(key, a)), Op(d, 0, Set(key, b));
    hide Final, Run, DisciplinedRun, FirstWaits, SecondThrough, Quiescent, Asked, Hold, Init;
    steps := FirstAsks(n, x, d);
    steps := SecondOvertakes(s, steps, x, y);
    steps := FirstFinishes(s, steps, x, y);
  }

  // ---------------------------------------------------------------- when replicas converge

  /** Every write of a key comes from one of the clients that `writers` names for it. */
  ghost predicate KeepTo(s: System, writers: Key -> set<nat>) {
    forall c :: 0 <= c < |s.conns| ==> Allowed(s.conns[c].admitted, writers)
  }

  ghost predicate Allowed(ops: seq<Op>, writers: Key -> set<nat>) {
    forall j :: 0 <= j < |ops| && ops[j].cmd.Set? ==> ops[j].client in writers(ops[j].cmd.key)
  }

  ghost predicate SameMaps(s: System) {
    forall i, j :: 0 <= i < |s.datalets| && 0 <= j < |s.datalets| ==> s.datalets[i].kv == s.datalets[j].kv
  }

  /** A chain with `n` slaves ends every disciplined run in agreement if the clients keep to `writers`. */
  ghost predicate Agrees(n: nat, writers: Key -> set<nat>) {
    forall s, steps {:trigger DisciplinedRun(s, steps)} ::
      Init(s) && s.n == n && DisciplinedRun(s, steps) && Quiescent(Final(s, steps)) && KeepTo(Final(s, steps), writers)
      ==> SameMaps(Final(s, steps))
  }

  ghost predicate Exclusive(writers: Key -> set<nat>) {
    forall k, c, d :: c in writers(k) && d in writers(k) ==> c == d
  }

  function Owner(writers: set<nat>): nat {
    if exists c :: c in writers && forall d :: d in writers ==> d == c
    then var c :| c in writers && forall d :: d in writers ==> d == c; c
    else 0
  }

  lemma Converged(s: System, steps: seq<Step>, writers: Key -> set<nat>)
    requires Init(s) && DisciplinedRun(s, steps) && Exclusive(writers)
    requires Quiescent(Final(s, steps)) && KeepTo(Final(s, steps), writers)
    ensures SameMaps(Final(s, steps))
  {
    hide Final, DisciplinedRun, Quiescent, Init, Replay;
    var f := Final(s, steps);
    var owner := (k: Key) => Owner(writers(k));
    forall c | 0 <= c < |f.conns|
      ensures SingleWriter(f.conns[c].admitted, owner)
    {
    }
    Convergence(s, steps, owner, 0);
    forall i | 0 <= i < |f.datalets|
      ensures f.datalets[i].kv == Replay(f.kafka)
    {
      Convergence(s, steps, owner, i);
    }
  }

  lemma Diverged(f: System, writers: Key -> set<nat>, k: Key, c: nat, d: nat)
    requires c in writers(k) && d in writers(k) && c != d && f.n >= 1
    requires Asked(f, Op(c, 0, Set(k, "a")), Op(d, 0, Set(k, "b"))) && Hold(f, map[k := "b"], map[k := "a"])
    ensures KeepTo(f, writers) && !SameMaps(f)
  {
    assert f.datalets[0].kv[k] != f.datalets[1].kv[k];
  }

  /**
   * The replicas are bound to agree if and only if no key may be written by two clients. The
   * condition concerns only who may write what.
   */
  lemma ConvergesIff(n: nat, writers: Key -> set<nat>)
    requires n >= 1
    ensures Agrees(n, writers) <==> Exclusive(writers)
  {
    hide Final, DisciplinedRun, Quiescent, SameMaps, KeepTo, Init;
    if Exclusive(writers) {
      forall s, steps | Init(s) && s.n == n && DisciplinedRun(s, steps) && Quiescent(Final(s, steps))
                        && KeepTo(Final(s, steps), writers)
        ensures SameMaps(Final(s, steps))
      {
        Converged(s, steps, writers);
      }
    } else {
      var k, c, d :| c in writers(k) && d in writers(k) && c != d;
      var s, steps := TwoWritersDiverge(n, k, c, "a", d, "b");
      Diverged(Final(s, steps), writers, k, c, d);
    }
  }
}
