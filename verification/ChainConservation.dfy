/**
 * What every step of a disciplined run keeps for one client: no request is lost, duplicated or
 * reordered on its way down the chain.
 */
module ChainConservation {
  import opened KeyValue
  import opened Chain

  /** The requests a link holds, oldest first. */
  function Held(l: Link): seq<Op> {
    l.omsg + l.imsg
  }

  /** The requests between the client and the end of the chain, oldest first. */
  function Flight(links: seq<Link>): seq<Op> {
    if links == [] then [] else Flight(links[1..]) + Held(links[0])
  }

  lemma {:induction false} AllEmpty(links: seq<Link>)
    requires forall j :: 0 <= j < |links| ==> Held(links[j]) == []
    ensures Flight(links) == []
  {
    if links != [] {
      AllEmpty(links[1..]);
    }
  }

  /** The replies that have at least reached the client's queue. */
  function Given(k: Conn): seq<Reply> {
    k.replied + k.g.client.imsg
  }

  /** How many of the client's requests are past the execution point of datalet `i`. */
  function Reached(links: seq<Link>, socks: seq<Socket>, given: nat, i: nat): nat
    requires i < |links| == |socks|
  {
    given + |Flight(links[i + 1..])| + |socks[i].rsps|
  }

  ghost predicate Numbered(admitted: seq<Op>, c: nat) {
    forall j :: 0 <= j < |admitted| ==> admitted[j].client == c && admitted[j].seqno == j
  }

  /** Every sent request is either still on the wire or has its response waiting. */
  ghost predicate WiredAt(l: Link, sock: Socket) {
    |sock.rsps| <= |l.omsg| && l.omsg[|sock.rsps|..] == sock.wire
  }

  ghost predicate Wired(links: seq<Link>, socks: seq<Socket>) {
    |links| == |socks| && forall i :: 0 <= i < |links| ==> WiredAt(links[i], socks[i])
  }

  /** The client's requests are the answered ones followed by those in flight. */
  ghost predicate Conserved(admitted: seq<Op>, given: nat, links: seq<Link>) {
    given <= |admitted| && admitted[given..] == Flight(links)
  }

  ghost predicate AllWrites(ops: seq<Op>) {
    forall j :: 0 <= j < |ops| ==> ops[j].cmd.Set?
  }

  /** A client has writes in flight, perhaps behind one read at the tail, and the flags say which. */
  ghost predicate Moded(links: seq<Link>) {
    && |links| >= 2
    && var f := Flight(links);
       var t := links[|links| - 1];
       || (AllWrites(f) && (f != [] ==> links[0].fwd))
       || (&& f != [] && f[0].cmd.Get? && AllWrites(f[1..]) && Held(t) != []
           && if |f| == 1 then t.tail && !links[0].fwd else links[0].fwd)
  }

  /** A datalet has executed exactly the first writes of the client, in the client's order. */
  ghost predicate AppliedAt(admitted: seq<Op>, reached: nat, c: nat, log: seq<Entry>) {
    reached <= |admitted| && Writes(Ops(log), c) == Writes(admitted[..reached], c)
  }

  ghost predicate Applied(admitted: seq<Op>, given: nat, links: seq<Link>, socks: seq<Socket>,
                          c: nat, datalets: seq<Datalet>) {
    && |links| == |socks| == |datalets|
    && forall i :: 0 <= i < |datalets| ==>
         AppliedAt(admitted, Reached(links, socks, given, i), c, datalets[i].log)
  }

  /** The tail has executed exactly the first requests of the client, reads included. */
  ghost predicate TailApplied(admitted: seq<Op>, reached: nat, c: nat, log: seq<Entry>) {
    reached <= |admitted| && From(Ops(log), c) == admitted[..reached]
  }

  /** Each of `replies` is what the log has for the request at the same place. */
  ghost predicate Recorded(ops: seq<Op>, replies: seq<Reply>, log: seq<Entry>) {
    |replies| <= |ops| && forall j :: 0 <= j < |replies| ==> Entry(ops[j], replies[j]) in log
  }

  ghost predicate Healthy(g: Group) {
    !g.client.error && forall i :: 0 <= i < |g.links| ==> !g.links[i].error
  }

  ghost predicate ConnInv(k: Conn, c: nat, datalets: seq<Datalet>) {
    && |datalets| >= 2
    && ShapedConn(k, |datalets| - 1)
    && var t := |datalets| - 1;
       var links, log := k.g.links, datalets[t].log;
       && Healthy(k.g)
       && Numbered(k.admitted, c)
       && Wired(links, k.socks)
       && Conserved(k.admitted, |Given(k)|, links)
       && Moded(links)
       && Applied(k.admitted, |Given(k)|, links, k.socks, c, datalets)
       && TailApplied(k.admitted, |Given(k)| + |k.socks[t].rsps|, c, log)
       && Recorded(k.admitted, Given(k), log)
       && Recorded(links[t].omsg, k.socks[t].rsps, log)
  }

  // ---------------------------------------------------------------- the flight of requests

  lemma Assoc<T>(x: seq<T>, y: seq<T>, z: seq<T>)
    ensures (x + y) + z == x + (y + z)
  {}

  lemma {:induction false} FlightConcat(a: seq<Link>, b: seq<Link>)
    ensures Flight(a + b) == Flight(b) + Flight(a)
  {
    hide Held;
    if a == [] {
      assert a + b == b;
    } else {
      FlightConcat(a[1..], b);
      assert (a + b)[1..] == a[1..] + b && (a + b)[0] == a[0];
      Assoc(Flight(b), Flight(a[1..]), Held(a[0]));
    }
  }

  /** What link `i` holds sits between what is ahead of it and what is behind it. */
  lemma FlightAt(links: seq<Link>, i: nat)
    requires i < |links|
    ensures Flight(links) == Flight(links[i + 1..]) + Held(links[i]) + Flight(links[..i])
    ensures Flight(links[i..]) == Flight(links[i + 1..]) + Held(links[i])
  {
    hide Held;
    assert links == links[..i] + links[i..];
    assert links[i..][1..] == links[i + 1..] && links[i..][0] == links[i];
    FlightConcat(links[..i], links[i..]);
  }

  /** If two chains agree before link `i` and fly the same from link `i` on, they fly the same. */
  lemma FlightSuffix(a: seq<Link>, b: seq<Link>, i: nat, j: nat)
    requires j <= i <= |a| == |b| && a[..i] == b[..i] && Flight(a[i..]) == Flight(b[i..])
    ensures Flight(a[j..]) == Flight(b[j..])
  {
    hide Flight;
    assert a[j..] == a[j..i] + a[i..] && b[j..] == b[j..i] + b[i..];
    assert a[j..i] == a[..i][j..] == b[..i][j..] == b[j..i];
    FlightConcat(a[j..i], a[i..]);
    FlightConcat(b[j..i], b[i..]);
  }

  lemma Whole(links: seq<Link>)
    ensures links[0..] == links
  {}

  /** Changing link `i` without changing the requests it holds changes no flight. */
  lemma FlightKept(links: seq<Link>, i: nat, l: Link)
    requires i < |links| && Held(l) == Held(links[i])
    ensures Flight(links[i := l]) == Flight(links)
    ensures forall j :: 0 <= j <= |links| ==> Flight(links[i := l][j..]) == Flight(links[j..])
  {
    hide Flight, Held;
    var r := links[i := l];
    FlightAt(links, i);
    FlightAt(r, i);
    assert r[i + 1..] == links[i + 1..] && r[..i] == links[..i];
    forall j | 0 <= j <= |links| ensures Flight(r[j..]) == Flight(links[j..]) {
      if j <= i {
        FlightSuffix(links, r, i, j);
      } else {
        assert r[j..] == links[j..];
      }
    }
    Whole(links);
    Whole(r);
  }

  /** The links `i` and `i + 1` after the oldest sent request of `i` has moved on. */
  ghost predicate Forwarded(links: seq<Link>, i: nat, r: seq<Link>) {
    && i + 1 < |links| == |r| && links[i].omsg != []
    && r[..i] == links[..i] && r[i + 2..] == links[i + 2..]
    && r[i].omsg == links[i].omsg[1..] && r[i].imsg == links[i].imsg
    && r[i + 1].omsg == links[i + 1].omsg
    && r[i + 1].imsg == links[i + 1].imsg + [links[i].omsg[0]]
  }

  lemma HeldMoves(links: seq<Link>, i: nat, r: seq<Link>)
    requires Forwarded(links, i, r)
    ensures Held(r[i + 1]) == Held(links[i + 1]) + [links[i].omsg[0]]
    ensures Held(links[i]) == [links[i].omsg[0]] + Held(r[i])
  {}

  lemma ForwardedHere(links: seq<Link>, i: nat, r: seq<Link>)
    requires Forwarded(links, i, r)
    ensures Flight(r[i..]) == Flight(links[i..])
    ensures Flight(r[i + 1..]) == Flight(links[i + 1..]) + [links[i].omsg[0]]
  {
    hide Flight, Held;
    HeldMoves(links, i, r);
    FlightAt(links, i + 1);
    FlightAt(r, i + 1);
    Assoc(Flight(links[i + 2..]), Held(links[i + 1]), [links[i].omsg[0]]);
    FlightAt(links, i);
    FlightAt(r, i);
    Assoc(Flight(links[i + 1..]), [links[i].omsg[0]], Held(r[i]));
  }

  /** Handing the oldest sent request of link `i` to link `i + 1` keeps every flight but one. */
  lemma FlightForwarded(links: seq<Link>, i: nat, r: seq<Link>)
    requires Forwarded(links, i, r)
    ensures Flight(r) == Flight(links)
    ensures forall j :: 0 <= j <= |links| && j != i + 1 ==> Flight(r[j..]) == Flight(links[j..])
    ensures Flight(r[i + 1..]) == Flight(links[i + 1..]) + [links[i].omsg[0]]
  {
    hide Flight;
    ForwardedHere(links, i, r);
    forall j | 0 <= j <= |links| && j != i + 1 ensures Flight(r[j..]) == Flight(links[j..]) {
      if j <= i {
        FlightSuffix(links, r, i, j);
      } else {
        assert r[j..] == r[i + 2..][j - i - 2..] && links[j..] == links[i + 2..][j - i - 2..];
      }
    }
    Whole(links);
    Whole(r);
  }

  /** The last link is at the front of every flight that reaches it. */
  lemma FlightEnd(links: seq<Link>, j: nat)
    requires j < |links|
    ensures Flight(links[j..]) == Held(links[|links| - 1]) + Flight(links[j..|links| - 1])
  {
    hide Flight, Held;
    var t := |links| - 1 - j;
    FlightAt(links[j..], t);
    assert links[j..][t + 1..] == [] && links[j..][..t] == links[j..|links| - 1];
    NoLinks();
  }

  lemma NoLinks()
    ensures Flight([]) == []
  {}

  /** `l` is the last link after its oldest sent request has been answered. */
  ghost predicate Delivered(links: seq<Link>, l: Link) {
    && |links| >= 1
    && var t := links[|links| - 1]; t.omsg != [] && l.omsg == t.omsg[1..] && l.imsg == t.imsg
  }

  lemma DeliveredHere(links: seq<Link>, l: Link, j: nat)
    requires Delivered(links, l) && j < |links|
    ensures Flight(links[j..]) == [links[|links| - 1].omsg[0]] + Flight(links[|links| - 1 := l][j..])
  {
    hide Flight;
    var t := |links| - 1;
    var r := links[t := l];
    FlightEnd(links, j);
    FlightEnd(r, j);
    assert r[j..t] == links[j..t];
    assert Held(links[t]) == [links[t].omsg[0]] + Held(l);
    Assoc([links[t].omsg[0]], Held(l), Flight(links[j..t]));
  }

  /** Retiring the oldest sent request of the last link shortens every flight from the front. */
  lemma FlightDelivered(links: seq<Link>, l: Link)
    requires Delivered(links, l)
    ensures var t, r := |links| - 1, links[|links| - 1 := l];
      && Flight(links) == [links[t].omsg[0]] + Flight(r)
      && forall j :: 0 <= j < |links| ==> Flight(links[j..]) == [links[t].omsg[0]] + Flight(r[j..])
  {
    hide Flight;
    var t, r := |links| - 1, links[|links| - 1 := l];
    forall j | 0 <= j < |links| ensures Flight(links[j..]) == [links[t].omsg[0]] + Flight(r[j..]) {
      DeliveredHere(links, l, j);
    }
    Whole(links);
    Whole(r);
  }

  lemma {:induction false} FlightSize(links: seq<Link>)
    ensures forall i :: 0 <= i < |links| ==> |Held(links[i])| <= |Flight(links)|
    ensures Flight(links) == [] <==> forall i :: 0 <= i < |links| ==> Held(links[i]) == []
  {
    hide Held;
    if links != [] {
      FlightSize(links[1..]);
      assert forall i :: 1 <= i < |links| ==> links[i] == links[1..][i - 1];
      assert forall i :: 0 <= i < |links[1..]| ==> links[1..][i] == links[i + 1];
    }
  }

  /** A flight seen from link `j` on is the oldest part of the whole flight. */
  lemma FlightPrefix(links: seq<Link>, j: nat)
    requires j <= |links|
    ensures Flight(links[j..]) <= Flight(links)
  {
    hide Flight;
    assert links == links[..j] + links[j..];
    FlightConcat(links[..j], links[j..]);
  }
}
