/** Rebuilding a datalet from the request log, one outstanding request at a time. */
module Recovery {
  import opened KeyValue
  import opened Epoll
  import opened Wrappers

  /** What happens next: the datalet executes, or the loop is told of an event on the link. */
  datatype Event =
    | Executes
    | Readable(received: bool, timeout: bool)   // whether the read succeeds, and whether consume times out
    | Writable(written: bool)

  datatype Status = Recovering | Recovered | Failed

  class Replayer {
    const log: seq<Op>
    const fdes: Fdevents
    const fd: nat
    /** The consumer's position in the log. */
    var offset: nat
    /** The link to the datalet: queued, on the wire, and answers that wait to be read. */
    var imsgQ: seq<Op>
    var wire: seq<Op>
    var answers: nat
    var error: bool
    /** The datalet, and what it has executed. */
    var kv: Kv
    ghost var applied: seq<Op>
    /** What was taken off the queue and could not be sent. */
    ghost var lost: seq<Op>

    ghost predicate Valid()
      reads this, fdes
    {
      && fdes.Valid() && offset <= |log|
      && applied + wire + lost + imsgQ == log[..offset]
      && |imsgQ| + |wire| + |lost| + answers <= 1 && (!error ==> lost == [])
      && kv == Replay(applied)
      && (imsgQ != [] ==> fdes.Out(fd)) && (wire != [] || answers > 0 ==> fdes.In(fd))
    }

    /** Nothing is outstanding. */
    ghost predicate Settled()
      reads this
    {
      imsgQ == [] && wire == [] && lost == [] && answers == 0
    }

    constructor (log: seq<Op>, fd: nat)
      ensures Valid() && Settled() && this.log == log && offset == 0 && applied == [] && fresh(fdes)
    {
      this.log := log;
      this.fd := fd;
      fdes := new Fdevents();
      offset, imsgQ, wire, answers, error := 0, [], [], 0, false;
      kv, applied, lost := map[], [], [];
    }

    /** The next entry of the log; nothing at its end, or when waiting for it takes too long. */
    method Consume(timeout: bool) returns (r: Option<Op>)
      requires offset <= |log|
      modifies `offset
      ensures r.None? <==> timeout || old(offset) == |log|
      ensures offset == old(offset) + if r.None? then 0 else 1
      ensures r.Some? ==> offset <= |log| && r.value == log[old(offset)]
    {
      if timeout || offset == |log| {
        return None;
      }
      r := Some(log[offset]);
      offset := offset + 1;
    }

    /** Takes the next entry and queues it. */
    method Fetch(timeout: bool) returns (more: bool)
      requires Valid() && Settled()
      modifies this, fdes
      ensures Valid() && applied == old(applied) && error == old(error)
      ensures !more <==> timeout || old(offset) == |log|
      ensures if more then |imsgQ| == 1 && offset == old(offset) + 1 else Settled() && offset == old(offset)
    {
      var next := Consume(timeout);
      if next.None? {
        return false;
      }
      if imsgQ == [] {
        var ret := fdes.Set(fd, FDEVENT_OUT);
      }
      assert log[..offset] == log[..old(offset)] + [next.value];
      imsgQ := imsgQ + [next.value];
      more := true;
    }

    /** The datalet executes the request it has received. */
    method Execute()
      requires Valid() && wire != []
      modifies `wire, `answers, `kv, `applied
      ensures Valid() && applied == old(applied) + [old(wire)[0]] && answers > 0
    {
      ReplayStep(applied, wire[0]);
      kv := Store(kv, wire[0].cmd);
      applied := applied + [wire[0]];
      wire := wire[1..];
      answers := answers + 1;
    }

    /** The branch for a readable link: the answer is read and the next entry fetched. */
    method OnReadable(received: bool, timeout: bool) returns (r: Status)
      requires Valid() && (received ==> answers > 0) && lost == []
      modifies this, fdes
      ensures Valid() && applied == old(applied) && lost == [] && r != Failed
      ensures received ==> r == if timeout || old(offset) == |log| then Recovered else Recovering
      ensures received && r == Recovering ==> Phase() == 0 && offset == old(offset) + 1
      ensures r == Recovered ==> Settled() && received && (timeout || offset == |log|)
      ensures r == Recovering && old(!Settled()) ==> !Settled()
    {
      if !received {
        error := true;
        return Recovering;
      }
      answers := answers - 1;
      var more := Fetch(timeout);
      r := if more then Recovering else Recovered;
    }

    /** The branch for a writable link: the queued request is sent. */
    method OnWritable(written: bool) returns (r: Status)
      requires Valid() && lost == []
      modifies this, fdes
      ensures Valid() && applied == old(applied) && r != Recovered && imsgQ == [] && offset == old(offset)
      ensures r == Recovering ==> lost == [] && (old(!Settled()) ==> !Settled())
      ensures written ==> r == Recovering && (old(imsgQ) != [] ==> wire != [])
    {
      if imsgQ == [] {
        var ret := fdes.Clr(fd, FDEVENT_OUT);
        return Recovering;
      }
      var smsg := imsgQ[0];
      imsgQ := imsgQ[1..];
      if !written {
        error := true;
        lost := [smsg];
        return Failed;
      }
      wire := wire + [smsg];
      var ret := fdes.Set(fd, FDEVENT_IN);
      r := Recovering;
    }

    /** Where the outstanding entry is: queued, on the wire, answered, or nowhere. */
    ghost function Phase(): nat
      reads this
    {
      if imsgQ != [] then 0 else if wire != [] then 1 else if answers > 0 then 2 else 3
    }

    /**
     * One turn of the loop. A link that is both readable and writable counts as readable. The error
     * mark of the link is not looked at, so that a failed read is simply tried again.
     */
    method Turn(event: Event) returns (r: Status)
      requires Valid() && !Settled() && lost == []
      modifies this, fdes
      ensures Valid() && old(applied) <= applied && (r == Recovering ==> !Settled() && lost == [])
      ensures r == Recovered ==> Settled() && event.Readable? && (event.timeout || offset == |log|)
      ensures Due(event, old(Phase())) ==>
        && r != Failed && (r == Recovered <==> event.Readable? && (event.timeout || old(offset) == |log|))
        && (r == Recovered ==> offset == old(offset))
      ensures Due(event, old(Phase())) && r == Recovering ==>
        && Phase() == (old(Phase()) + 1) % 3
        && offset == old(offset) + if old(Phase()) == 2 then 1 else 0
    {
      r := Recovering;
      match event
      case Executes =>
        if wire != [] {
          Execute();
        }
      case Readable(received, timeout) =>
        if fdes.In(fd) && (received ==> answers > 0) {
          r := OnReadable(received, timeout);
        }
      case Writable(written) =>
        if fdes.Out(fd) && answers == 0 {
          r := OnWritable(written);
        }
    }

    /** The event that takes the entry on from a phase; the consumer may be late. */
    static predicate Due(event: Event, phase: nat) {
      if phase == 0 then event == Writable(true)
      else if phase == 1 then event == Executes
      else event.Readable? && event.received
    }

    /** Nothing fails, except that the consumer may be late. */
    static ghost predicate Smooth(schedule: seq<Event>) {
      forall t :: 0 <= t < |schedule| ==> Due(schedule[t], t % 3)
    }

    /** Whether consume number `j` of such a schedule is late. */
    static predicate Late(first: bool, schedule: seq<Event>, j: nat) {
      if j == 0 then first
      else 3 * j - 1 < |schedule| && schedule[3 * j - 1].Readable? && schedule[3 * j - 1].timeout
    }

    /** The first late consume from number `j` on, or the end of a log of `n` entries. */
    static function FirstLate(first: bool, schedule: seq<Event>, j: nat, n: nat): (k: nat)
      requires j <= n
      ensures j <= k <= n && (k == n || Late(first, schedule, k))
      ensures forall i :: j <= i < k ==> !Late(first, schedule, i)
      decreases n - j
    {
      if j == n || Late(first, schedule, j) then j else FirstLate(first, schedule, j + 1, n)
    }

    /** How far a smooth schedule has got after `t` events. */
    static ghost predicate OnTime(first: bool, schedule: seq<Event>, n: nat, t: nat,
                                  r: Status, offset: nat, phase: nat) {
      && offset <= n && r != Failed
      && (r == Recovering ==> phase == t % 3 && offset == t / 3 + 1)
      && FirstLate(first, schedule, 0, n) == if r == Recovering then FirstLate(first, schedule, offset, n) else offset
    }

    static lemma OneTurn(first: bool, schedule: seq<Event>, n: nat, t: nat, offset: nat, phase: nat,
                         r: Status, offset': nat, phase': nat)
      requires Smooth(schedule) && t < |schedule| && offset' <= n
      requires OnTime(first, schedule, n, t, Recovering, offset, phase)
      requires var event := schedule[t];
        Due(event, phase) ==>
          && r != Failed && (r == Recovered <==> event.Readable? && (event.timeout || offset == n))
          && (r == Recovered ==> offset' == offset)
          && (r == Recovering ==> phase' == (phase + 1) % 3 && offset' == offset + if phase == 2 then 1 else 0)
      ensures OnTime(first, schedule, n, t + 1, r, offset', phase')
    {
      assert Due(schedule[t], phase);
      assert phase == 2 ==> t == 3 * offset - 1;
    }

    static lemma AtTheEnd(first: bool, schedule: seq<Event>, n: nat, t: nat, r: Status, offset: nat, phase: nat)
      requires OnTime(first, schedule, n, t, r, offset, phase) && (r == Recovering ==> t >= 3 * n)
      ensures r == Recovered && offset == FirstLate(first, schedule, 0, n)
    {}

    static lemma FirstConsume(first: bool, schedule: seq<Event>, n: nat)
      ensures first || n == 0 ==> FirstLate(first, schedule, 0, n) == 0
      ensures !(first || n == 0) ==> OnTime(first, schedule, n, 0, Recovering, 1, 0)
    {}

    static lemma NoneLate(first: bool, schedule: seq<Event>, n: nat)
      ensures FirstLate(first, schedule, 0, n) == n <==> forall j :: 0 <= j < n ==> !Late(first, schedule, j)
    {}

    /**
     * recover_kafka, for whatever the datalet, the link and the consumer do. The datalet holds the
     * replay of a prefix of the log at every turn: each entry applied once, in order. When the loop
     * ends well that prefix is everything consumed, and the whole log if consume found no more only
     * there. If nothing fails, three events an entry are enough, and what is recovered is the log up
     * to the first late consume: all of it if and only if none before the end is late.
     */
    method Recover(first: bool, schedule: seq<Event>) returns (r: Status)
      requires Valid() && Settled() && offset == 0 && applied == [] && !error
      modifies this, fdes
      ensures Valid() && applied <= log && kv == Replay(applied)
      ensures |imsgQ| + |wire| + answers <= 1
      ensures forall k, v :: k in kv && kv[k] == v <==> LastSet(applied, k, v)
      ensures r == Recovered ==> applied == log[..offset]
      ensures r == Recovered && !first && (forall e :: e in schedule && e.Readable? ==> !e.timeout) ==>
        applied == log && kv == Replay(log)
      ensures Smooth(schedule) && |schedule| >= 3 * |log| ==>
        && r == Recovered && applied == log[..FirstLate(first, schedule, 0, |log|)]
        && (applied == log <==> forall j :: 0 <= j < |log| ==> !Late(first, schedule, j))
    {
      hide OnTime, FirstLate, Late, Smooth, Due, LastSet;
      NoneLate(first, schedule, |log|);
      var ret := fdes.Set(fd, FDEVENT_OUT);
      var more := Fetch(first);
      FirstConsume(first, schedule, |log|);
      if !more {
        Prefix();
        return Recovered;
      }
      r := Recovering;
      var t := 0;
      while r == Recovering && t < |schedule|
        invariant 0 <= t <= |schedule| && Valid() && (r == Recovering ==> !Settled() && lost == [])
        invariant r == Recovered ==>
          Settled() && t > 0 && schedule[t - 1].Readable? && (schedule[t - 1].timeout || offset == |log|)
        invariant Smooth(schedule) ==> OnTime(first, schedule, |log|, t, r, offset, Phase())
      {
        ghost var was, phase := offset, Phase();
        r := Turn(schedule[t]);
        if Smooth(schedule) {
          OneTurn(first, schedule, |log|, t, was, phase, r, offset, Phase());
        }
        t := t + 1;
      }
      Prefix();
      if Smooth(schedule) && |schedule| >= 3 * |log| {
        AtTheEnd(first, schedule, |log|, t, r, offset, Phase());
      }
    }

    lemma Prefix()
      requires Valid()
      ensures applied <= log && (Settled() ==> applied == log[..offset])
      ensures forall k, v :: k in kv && kv[k] == v <==> LastSet(applied, k, v)
    {
      forall k, v
        ensures k in kv && kv[k] == v <==> LastSet(applied, k, v)
      {
        ReplayLast(applied, k, v);
      }
      assert applied == (applied + wire + lost + imsgQ)[..|applied|];
    }
  }
}
