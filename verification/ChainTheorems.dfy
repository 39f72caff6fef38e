/** The main results about chain replication, for every run. */
module ChainTheorems {
  import opened KeyValue
  import opened Chain
  import opened ChainConservation
  import opened ChainInvariant
  import opened ChainSafety

  // ---------------------------------------------------------------- linearizability

  /** The last write of `k` before position `j` of the log stores `v`. */
  ghost predicate LastBefore(log: seq<Entry>, j: nat, k: Key, v: Val)
    requires j <= |log|
  {
    exists i :: 0 <= i < j && log[i].op.cmd == Set(k, v) &&
      forall m :: i < m < j ==> !(log[m].op.cmd.Set? && log[m].op.cmd.key == k)
  }

  ghost predicate NoneBefore(log: seq<Entry>, j: nat, k: Key)
    requires j <= |log|
  {
    forall i :: 0 <= i < j ==> !(log[i].op.cmd.Set? && log[i].op.cmd.key == k)
  }

  /** A write is answered `Stored`, a read with the last value written before it, or `Missing`. */
  ghost predicate RightAt(log: seq<Entry>, j: nat)
    requires j < |log|
  {
    match log[j].op.cmd
    case Set(_, _) => log[j].reply == Stored
    case Get(k) =>
      && (forall v :: log[j].reply == Found(v) <==> LastBefore(log, j, k, v))
      && (log[j].reply == Missing <==> NoneBefore(log, j, k))
  }

  ghost predicate RightAnswers(log: seq<Entry>) {
    forall j :: 0 <= j < |log| ==> RightAt(log, j)
  }

  lemma SameBefore(log: seq<Entry>, j: nat, k: Key, v: Val)
    requires j <= |log|
    ensures LastSet(Ops(log[..j]), k, v) <==> LastBefore(log, j, k, v)
    ensures NeverSet(Ops(log[..j]), k) <==> NoneBefore(log, j, k)
  {
    var ops := Ops(log[..j]);
    assert forall i :: 0 <= i < j ==> ops[i] == log[i].op;
  }

  lemma LegalRight(log: seq<Entry>)
    requires Legal(log)
    ensures RightAnswers(log)
  {
    forall j | 0 <= j < |log|
      ensures RightAt(log, j)
    {
      var cmd, ops := log[j].op.cmd, Ops(log[..j]);
      assert log[j].reply == Answer(Replay(ops), cmd);
      hide LastBefore, NoneBefore, LastSet, NeverSet, Replay, Ops, Legal;
      if cmd.Get? {
        forall v
          ensures log[j].reply == Found(v) <==> LastBefore(log, j, cmd.key, v)
          ensures log[j].reply == Missing <==> NoneBefore(log, j, cmd.key)
        {
          ReplayLast(ops, cmd.key, v);
          SameBefore(log, j, cmd.key, v);
        }
        ReplayLast(ops, cmd.key, "");
        SameBefore(log, j, cmd.key, "");
      }
    }
  }

  /**
   * Linearizability: in every disciplined run with any number of clients, the log of the tail
   * datalet is a sequential execution that agrees with every reply and with real time. A read in it
   * returns the value of the last write before it.
   */
  lemma Linearizable(s: System, steps: seq<Step>)
    requires Init(s) && DisciplinedRun(s, steps)
    ensures Shaped(Final(s, steps)) && !Final(s, steps).aborted
    ensures Linearization(Final(s, steps).history, Tail(Final(s, steps)))
    ensures RightAnswers(Tail(Final(s, steps)))
  {
    hide Linearization, RightAnswers;
    RunInv(s, steps);
    LegalPart(Final(s, steps).history, Tail(Final(s, steps)));
    LegalRight(Tail(Final(s, steps)));
  }

  lemma LegalPart(h: seq<Event>, log: seq<Entry>)
    requires Linearization(h, log)
    ensures Legal(log) && Complete(h, log)
  {}

  /**
   * What a client is told: its reply is at one place of the tail's log, and there a read returns the
   * value of the last write before it, or `Missing` if there is none; a write is told `Stored`.
   */
  lemma RepliesRight(s: System, steps: seq<Step>, op: Op, r: Reply) returns (j: nat)
    requires Init(s) && DisciplinedRun(s, steps) && Replied(op, r) in Final(s, steps).history
    ensures Shaped(Final(s, steps)) && j < |Tail(Final(s, steps))| && Tail(Final(s, steps))[j] == Entry(op, r)
    ensures match op.cmd
      case Set(_, _) => r == Stored
      case Get(k) =>
        var log := Tail(Final(s, steps));
        && (forall v :: r == Found(v) <==> LastBefore(log, j, k, v))
        && (r == Missing <==> NoneBefore(log, j, k))
  {
    hide Linearization, Final, DisciplinedRun, LastBefore, NoneBefore;
    Linearizable(s, steps);
    var log := Tail(Final(s, steps));
    LegalPart(Final(s, steps).history, log);
    j :| 0 <= j < |log| && log[j] == Entry(op, r);
    assert RightAt(log, j);
  }

  // ---------------------------------------------------------------- conservation

  /** Whatever a client asked is answered, waiting in its queue, or at one place in the chain. */
  lemma NothingLost(s: System, steps: seq<Step>, c: nat)
    requires Init(s) && DisciplinedRun(s, steps) && c < |Final(s, steps).conns|
    ensures var k := Final(s, steps).conns[c];
      |Given(k)| <= |k.admitted| && k.admitted == k.admitted[..|Given(k)|] + Flight(k.g.links)
  {
    var f := Final(s, steps);
    hide Flight, Linearization, Final, Applied, TailApplied, Recorded;
    RunInv(s, steps);
    ConnShaped(f, c);
  }

  lemma {:induction false} WritesPrefix(a: seq<Op>, n: nat, c: nat)
    requires n <= |a|
    ensures Writes(a[..n], c) <= Writes(a, c)
    decreases |a|
  {
    if n < |a| {
      var init := a[..|a| - 1];
      WritesPrefix(init, n, c);
      assert init[..n] == a[..n];
    } else {
      assert a[..n] == a;
    }
  }

  lemma ReachedOrder(links: seq<Link>, socks: seq<Socket>, given: nat, i: nat)
    requires Wired(links, socks) && i + 1 < |links|
    ensures Reached(links, socks, given, i + 1) <= Reached(links, socks, given, i)
  {
    hide Flight;
    FlightAt(links, i + 1);
    assert WiredAt(links[i + 1], socks[i + 1]);
  }

  /** A datalet has executed a prefix of what its predecessor has, client by client. */
  lemma ReplicaPrefix(s: System, steps: seq<Step>, c: nat, i: nat)
    requires Init(s) && DisciplinedRun(s, steps)
    requires c < |Final(s, steps).conns| && i < Final(s, steps).n
    ensures var f := Final(s, steps);
      |f.datalets| == f.n + 1 &&
      Writes(Ops(f.datalets[i + 1].log), c) <= Writes(Ops(f.datalets[i].log), c)
  {
    hide Linearization, Final, DisciplinedRun;
    var f := Final(s, steps);
    RunInv(s, steps);
    ConnShaped(f, c);
    PrefixHere(f.conns[c], c, f.datalets, i);
  }

  lemma PrefixHere(k: Conn, c: nat, datalets: seq<Datalet>, i: nat)
    requires ConnInv(k, c, datalets) && i + 1 < |datalets|
    ensures Writes(Ops(datalets[i + 1].log), c) <= Writes(Ops(datalets[i].log), c)
  {
    hide Writes, Ops, TailApplied, Recorded, Moded, Healthy, Conserved, Numbered, Reached, Flight, Wired;
    var g := |Given(k)|;
    var r0, r1 := Reached(k.g.links, k.socks, g, i), Reached(k.g.links, k.socks, g, i + 1);
    assert AppliedAt(k.admitted, r0, c, datalets[i].log);
    assert AppliedAt(k.admitted, r1, c, datalets[i + 1].log);
    ReachedOrder(k.g.links, k.socks, g, i);
    assert k.admitted[..r0][..r1] == k.admitted[..r1];
    WritesPrefix(k.admitted[..r0], r1, c);
  }

  /** An acknowledged write has been executed by every one of the n + 1 datalets. */
  lemma AckedEverywhere(s: System, steps: seq<Step>, c: nat, j: nat, i: nat)
    requires Init(s) && DisciplinedRun(s, steps)
    requires c < |Final(s, steps).conns| && i <= Final(s, steps).n
    requires var k := Final(s, steps).conns[c]; j < |k.replied| && j < |k.admitted| && k.admitted[j].cmd.Set?
    ensures var f := Final(s, steps);
      |f.datalets| == f.n + 1 && f.conns[c].admitted[j] in Ops(f.datalets[i].log)
  {
    hide Linearization, Final, DisciplinedRun;
    var f := Final(s, steps);
    RunInv(s, steps);
    ConnShaped(f, c);
    AckedHere(f.conns[c], c, f.datalets, j, i);
  }

  lemma AckedHere(k: Conn, c: nat, datalets: seq<Datalet>, j: nat, i: nat)
    requires ConnInv(k, c, datalets) && i < |datalets|
    requires j < |Given(k)| && j < |k.admitted| && k.admitted[j].cmd.Set?
    ensures k.admitted[j] in Ops(datalets[i].log)
  {
    hide Writes, Ops, TailApplied, Recorded, Moded, Healthy, Conserved, Numbered, Flight, Wired;
    var r := Reached(k.g.links, k.socks, |Given(k)|, i);
    assert AppliedAt(k.admitted, r, c, datalets[i].log);
    Owned(k.admitted, c, j);
    assert k.admitted[..r][j] == k.admitted[j];
    InWrites(k.admitted[..r], c, k.admitted[j]);
    InWrites(Ops(datalets[i].log), c, k.admitted[j]);
  }

  // ---------------------------------------------------------------- convergence

  ghost predicate Quiescent(s: System) {
    forall c :: 0 <= c < |s.conns| ==> Flight(s.conns[c].g.links) == []
  }

  /** Every key is written through one connection only. */
  ghost predicate OneWriterPerKey(s: System, owner: Key -> nat) {
    forall c :: 0 <= c < |s.conns| ==> SingleWriter(s.conns[c].admitted, owner)
  }

  lemma QuiescentReached(k: Conn, c: nat, datalets: seq<Datalet>, i: nat)
    requires ConnInv(k, c, datalets) && i < |datalets| && Flight(k.g.links) == []
    ensures Writes(Ops(datalets[i].log), c) == Writes(k.admitted, c)
  {
    hide Writes, Ops, TailApplied, Recorded, Moded, Healthy, Numbered, Flight, Wired;
    var r := Reached(k.g.links, k.socks, |Given(k)|, i);
    assert AppliedAt(k.admitted, r, c, datalets[i].log);
    EmptyFlight(k.g.links, i + 1);
    WiredPick(k.g.links, k.socks, i);
    FlightSize(k.g.links);
    assert Held(k.g.links[i]) == [];
    assert k.admitted[..|k.admitted|] == k.admitted;
  }

  lemma LogWriters(s: System, owner: Key -> nat, i: nat)
    requires Inv(s) && OneWriterPerKey(s, owner) && i < |s.datalets|
    ensures SingleWriter(Ops(s.datalets[i].log), owner)
  {
    hide Linearization, Journaled, Known, AllInvoked, Datalets, From, Ops, ConnInv, Writes;
    var ops := Ops(s.datalets[i].log);
    forall j | 0 <= j < |ops| && ops[j].cmd.Set? ensures ops[j].client == owner(ops[j].cmd.key) {
      var c := ops[j].client;
      InFrom(ops, c, ops[j]);
      assert c < |s.conns|;
      ConnShaped(s, c);
      ExecutedIsAdmitted(s.conns[c], c, s.datalets, i, ops[j]);
    }
  }

  lemma ExecutedIsAdmitted(k: Conn, c: nat, datalets: seq<Datalet>, i: nat, op: Op)
    requires ConnInv(k, c, datalets) && i < |datalets|
    requires op in Ops(datalets[i].log) && op.client == c && op.cmd.Set?
    ensures op in k.admitted
  {
    hide Writes, Ops, TailApplied, Recorded, Moded, Healthy, Conserved, Numbered, Flight, Wired, Reached;
    var r := Reached(k.g.links, k.socks, |Given(k)|, i);
    assert AppliedAt(k.admitted, r, c, datalets[i].log);
    InWrites(Ops(datalets[i].log), c, op);
    InWrites(k.admitted[..r], c, op);
  }

  lemma JournalWriters(s: System, owner: Key -> nat)
    requires Inv(s) && OneWriterPerKey(s, owner)
    ensures SingleWriter(s.kafka, owner)
  {
    hide Linearization, Known, AllInvoked, Datalets, ConnInv, Writes, Conns, NoStrangers;
    forall j | 0 <= j < |s.kafka| && s.kafka[j].cmd.Set?
      ensures s.kafka[j].client == owner(s.kafka[j].cmd.key)
    {
      var op := s.kafka[j];
      InWrites(s.kafka, op.client, op);
      assert Writes(s.kafka, op.client) == Writes(Admitted(s.conns, op.client), op.client);
      InWrites(Admitted(s.conns, op.client), op.client, op);
    }
  }

  lemma SameEverywhere(s: System, i: nat, c: nat)
    requires Inv(s) && Quiescent(s) && i < |s.datalets|
    ensures Writes(Ops(s.datalets[i].log), c) == Writes(s.kafka, c)
  {
    hide Linearization, Known, AllInvoked, Datalets, ConnInv, Writes, Conns, From, Ops, Flight;
    assert Writes(s.kafka, c) == Writes(Admitted(s.conns, c), c);
    if c < |s.conns| {
      ConnShaped(s, c);
      QuiescentReached(s.conns[c], c, s.datalets, i);
    } else {
      NoWrites(Ops(s.datalets[i].log), c);
      EmptyWrites(c);
    }
  }

  lemma EmptyWrites(c: nat)
    ensures Writes([], c) == []
  {}

  /**
   * Convergence: when no request is in flight, all n + 1 datalets hold the same map, and it is
   * the map a replay of the request log rebuilds.
   */
  lemma Convergence(s: System, steps: seq<Step>, owner: Key -> nat, i: nat)
    requires Init(s) && DisciplinedRun(s, steps)
    requires Quiescent(Final(s, steps)) && OneWriterPerKey(Final(s, steps), owner)
    requires i <= Final(s, steps).n
    ensures var f := Final(s, steps);
      && |f.datalets| == f.n + 1 && f.datalets[i].kv == Replay(f.kafka)
      && forall k, v :: k in f.datalets[i].kv && f.datalets[i].kv[k] == v <==> LastSet(f.kafka, k, v)
  {
    hide Final, DisciplinedRun, Linearization, Conns, LastSet, NeverSet, Replay;
    RunInv(s, steps);
    var f := Final(s, steps);
    ConvergedState(f, owner, i);
    forall k, v
      ensures k in Replay(f.kafka) && Replay(f.kafka)[k] == v <==> LastSet(f.kafka, k, v)
    {
      ReplayLast(f.kafka, k, v);
    }
  }

  lemma ConvergedState(f: System, owner: Key -> nat, i: nat)
    requires Inv(f) && Quiescent(f) && OneWriterPerKey(f, owner) && i <= f.n
    ensures f.datalets[i].kv == Replay(f.kafka)
  {
    LogWriters(f, owner, i);
    JournalWriters(f, owner);
    hide Linearization, Conns, Journaled, Known, AllInvoked, NoStrangers, Writes, Ops, Replay, SingleWriter, Legal;
    forall c ensures Writes(Ops(f.datalets[i].log), c) == Writes(f.kafka, c) {
      SameEverywhere(f, i, c);
    }
    SameWritesSameMap(Ops(f.datalets[i].log), f.kafka, owner);
    DataletPick(f.datalets, i);
  }
}
