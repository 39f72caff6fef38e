/** Why the discipline is what it is: exactly what a client must not do. */
module ChainPolicies {
  import opened KeyValue
  import opened Chain
  import opened ChainConservation
  import opened ChainSafety
  import opened ChainTheorems
  import opened ChainRuns
  import opened ChainCounterexamples

  /**
   * A policy `may` says which command a client may give while another one of its own is
   * unanswered. The step keeps to it with regard to all unanswered requests; sockets work.
   */
  ghost predicate Keeps(s: System, step: Step, may: (Cmd, Cmd) -> bool) {
    && Working([step])
    && (step.Request? ==> step.c < |s.conns| && KeepsConn(s.conns[step.c], step.cmd, may))
  }

  ghost predicate KeepsConn(k: Conn, cmd: Cmd, may: (Cmd, Cmd) -> bool) {
    forall j :: |k.replied| <= j < |k.admitted| ==> may(k.admitted[j].cmd, cmd)
  }

  ghost predicate KeepingRun(s: System, steps: seq<Step>, may: (Cmd, Cmd) -> bool) {
    Run(s, steps) && (steps == [] || (
      var init := steps[..|steps| - 1];
      KeepingRun(s, init, may) && Keeps(Final(s, init), steps[|steps| - 1], may)))
  }

  /** Nothing is lost: requests are answered or in flight, and answered writes are everywhere. */
  ghost predicate Served(s: System) {
    |s.datalets| == s.n + 1 && forall c :: 0 <= c < |s.conns| ==> ServedConn(s.conns[c], s.datalets)
  }

  ghost predicate ServedConn(k: Conn, datalets: seq<Datalet>) {
    && |Given(k)| <= |k.admitted| && k.admitted == k.admitted[..|Given(k)|] + Flight(k.g.links)
    && forall j, i :: 0 <= j < |Given(k)| && 0 <= i < |datalets| && k.admitted[j].cmd.Set? ==>
         k.admitted[j] in Ops(datalets[i].log)
  }

  /** With `n` slaves nothing is lost in any run that keeps to the policy. */
  ghost predicate LosesNothing(n: nat, may: (Cmd, Cmd) -> bool) {
    forall s, steps {:trigger KeepingRun(s, steps, may)} ::
      Init(s) && s.n == n && KeepingRun(s, steps, may) ==> Served(Final(s, steps))
  }

  // ---------------------------------------------------------------- policies that wait before a read

  lemma Waits(k: Conn, c: nat, datalets: seq<Datalet>, key: Key, may: (Cmd, Cmd) -> bool)
    requires ConnInv(k, c, datalets) && KeepsConn(k, Get(key), may) && forall a: Cmd :: !may(a, Get(key))
    ensures |k.replied| == |k.admitted|
  {
    hide Applied, TailApplied, Recorded, Moded, Healthy, Flight, Wired, Numbered;
    if |k.replied| < |k.admitted| {
      var a := k.admitted[|k.replied|].cmd;
      assert false;
    }
  }

  lemma KeepsDiscipline(s: System, step: Step, may: (Cmd, Cmd) -> bool)
    requires Inv(s) && Keeps(s, step, may) && forall a: Cmd, key :: !may(a, Get(key))
    ensures Disciplined(s, step)
  {
    hide ConnInv, Linearization, KeepsConn;
    assert [step][0] == step;
    if step.Request? && step.cmd.Get? {
      ConnShaped(s, step.c);
      Waits(s.conns[step.c], step.c, s.datalets, step.cmd.key, may);
    }
  }

  lemma {:induction false} KeepingDisciplined(s: System, steps: seq<Step>, may: (Cmd, Cmd) -> bool)
    requires Init(s) && KeepingRun(s, steps, may) && forall a: Cmd, key :: !may(a, Get(key))
    ensures DisciplinedRun(s, steps)
  {
    hide Run, Final, Inv, Init, Keeps, Disciplined;
    if steps != [] {
      var init := steps[..|steps| - 1];
      KeepingDisciplined(s, init, may);
      RunInv(s, init);
      KeepsDiscipline(Final(s, init), steps[|steps| - 1], may);
    }
  }

  lemma DisciplinedServed(s: System, steps: seq<Step>)
    requires Init(s) && DisciplinedRun(s, steps)
    ensures Served(Final(s, steps))
  {
    hide Final, DisciplinedRun, Init, ServedConn, ConnInv, Linearization;
    RunInv(s, steps);
    var f := Final(s, steps);
    forall c | 0 <= c < |f.conns|
      ensures ServedConn(f.conns[c], f.datalets)
    {
      ConnShaped(f, c);
      InvServed(f.conns[c], c, f.datalets);
    }
  }

  lemma InvServed(k: Conn, c: nat, datalets: seq<Datalet>)
    requires ConnInv(k, c, datalets)
    ensures ServedConn(k, datalets)
  {
    assert Conserved(k.admitted, |Given(k)|, k.g.links);
    hide ConnInv, Flight, Ops;
    forall j, i | 0 <= j < |Given(k)| && 0 <= i < |datalets| && k.admitted[j].cmd.Set?
      ensures k.admitted[j] in Ops(datalets[i].log)
    {
      AckedHere(k, c, datalets, j, i);
    }
  }

  // ---------------------------------------------------------------- policies that do not

  /** The only client has asked for nothing but `x`, or `x` and then `y`. */
  ghost predicate AsksInTurn(s: System, x: Op, y: Op) {
    |s.conns| <= 1 && (|s.conns| == 1 ==> s.conns[0].admitted <= [x, y])
  }

  lemma AskedBefore(s: System, step: Step, x: Op, y: Op)
    requires Shaped(s) && Enabled(s, step) && AsksInTurn(Next(s, step), x, y)
    ensures AsksInTurn(s, x, y)
    ensures step.Request? ==>
      && step.c == 0 && |s.conns| == 1
      && (s.conns[0].admitted == [] || (s.conns[0].admitted == [x] && step.cmd == y.cmd))
  {
    hide Recv, Admit, Send, SendReply;
    if step.Request? {
      Prefixes(s.conns[0].admitted, Op(0, |s.conns[0].admitted|, step.cmd), x, y);
    }
  }

  lemma Prefixes(a: seq<Op>, op: Op, x: Op, y: Op)
    requires a + [op] <= [x, y]
    ensures a == [] || (a == [x] && op == y)
  {
    if a != [] {
      assert (a + [op])[0] == x && (a + [op])[1] == y;
    }
  }

  lemma {:induction false} InTurnKeeps(s: System, steps: seq<Step>, x: Op, y: Op, may: (Cmd, Cmd) -> bool)
    requires Run(s, steps) && Working(steps) && AsksInTurn(Final(s, steps), x, y) && may(x.cmd, y.cmd)
    ensures KeepingRun(s, steps, may)
  {
    hide Final, Enabled, Next, AsksInTurn, Run;
    if steps != [] {
      var init, step := steps[..|steps| - 1], steps[|steps| - 1];
      LastStep(s, steps);
      AskedBefore(Final(s, init), step, x, y);
      InTurnKeeps(s, init, x, y, may);
    }
  }

  lemma LastStep(s: System, steps: seq<Step>)
    requires Run(s, steps) && steps != []
    ensures var init, step := steps[..|steps| - 1], steps[|steps| - 1];
      && Run(s, init) && Shaped(Final(s, init)) && Enabled(Final(s, init), step)
      && Final(s, steps) == Next(Final(s, init), step)
  {
    hide Next, Enabled;
  }

  // ---------------------------------------------------------------- the exact condition

  /**
   * Nothing is lost in the runs that keep to a policy if and only if the policy never lets a
   * client start a read while a request of its own is unanswered.
   */
  lemma PolicyIff(n: nat, may: (Cmd, Cmd) -> bool)
    requires n >= 1
    ensures LosesNothing(n, may) <==> forall a: Cmd, key :: !may(a, Get(key))
  {
    hide Final, Run, DisciplinedRun, KeepingRun, Init, Served;
    if forall a: Cmd, key :: !may(a, Get(key)) {
      forall s, steps {:trigger KeepingRun(s, steps, may)} | Init(s) && s.n == n && KeepingRun(s, steps, may)
        ensures Served(Final(s, steps))
      {
        KeepingDisciplined(s, steps, may);
        DisciplinedServed(s, steps);
      }
    } else {
      var a: Cmd, key :| may(a, Get(key));
      var s, steps := Loses(n, a, key, may);
    }
  }

  lemma Loses(n: nat, a: Cmd, key: Key, may: (Cmd, Cmd) -> bool) returns (s: System, steps: seq<Step>)
    requires n >= 1 && may(a, Get(key))
    ensures Init(s) && s.n == n && KeepingRun(s, steps, may) && !Served(Final(s, steps))
  {
    hide Final, Run, KeepingRun, Init, Working, Flight;
    match a
    case Set(k, v) =>
      s, steps := ReadLosesWrite(n, 0, k, v, key, 0);
      InTurnKeeps(s, steps, Op(0, 0, a), Op(0, 1, Get(key)), may);
      AckedAndGone(Final(s, steps), Op(0, 0, a), Op(0, 1, Get(key)));
    case Get(k) =>
      s, steps := SecondReadDropped(n, 0, k, key);
      InTurnKeeps(s, steps, Op(0, 0, a), Op(0, 1, Get(key)), may);
      assert !ServedConn(Final(s, steps).conns[0], Final(s, steps).datalets);
  }

  lemma AckedAndGone(f: System, op: Op, get: Op)
    requires |f.conns| == 1 && |f.datalets| == f.n + 1 >= 2 && op.cmd.Set?
    requires Lost(f.conns[0], op, get, [Stored]) && f.datalets[1].log == []
    ensures !Served(f)
  {
    hide Flight;
    assert f.conns[0].admitted[0] !in Ops(f.datalets[1].log);
    assert !ServedConn(f.conns[0], f.datalets);
  }
}
