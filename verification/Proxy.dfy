/**
 * The proxy's handlers as they change links, event subscriptions and the request log in place.
 * Each is proved to do to the links of one client exactly what the step system says.
 */
module Proxy {
  import opened KeyValue
  import opened Epoll
  import Chain
  import opened Wrappers
  import opened Buffer
  import Frame

  /** `M` is what the link sends: requests to a datalet, replies to a client. */
  class Link<M> {
    const fd: nat
    var imsgQ: seq<M>
    var omsgQ: seq<Op>
    var fwdToReplicas: bool
    var tail: bool
    var error: bool
    var slaveNumber: int
    /** For a client's link: its master. */
    var dataletConn: Server?

    constructor (fd: nat, slaveNumber: int)
      ensures this.fd == fd && this.slaveNumber == slaveNumber
      ensures imsgQ == [] && omsgQ == [] && !error && dataletConn == null
    {
      this.fd := fd;
      this.slaveNumber := slaveNumber;
      imsgQ, omsgQ, error, dataletConn := [], [], false, null;
    }
  }

  type Server? = Link?<Op>
  type Server = Link<Op>
  type Client = Link<Reply>

  datatype Role = Master | Slave

  datatype Lookup = Hit(link: Server) | NoMaster | OutOfRange

  ghost predicate OwnedLink(l: Chain.Link, g: nat) {
    && (forall j :: 0 <= j < |l.imsg| ==> l.imsg[j].client == g)
    && (forall j :: 0 <= j < |l.omsg| ==> l.omsg[j].client == g)
  }

  lemma OwnedSend(l: Chain.Link, g: nat, written: bool)
    requires OwnedLink(l, g)
    ensures OwnedLink(Chain.Send(l, written), g)
  {}

  lemma OwnedFlags(l: Chain.Link, g: nat, fwd: bool, tail: bool)
    requires OwnedLink(l, g)
    ensures OwnedLink(l.(fwd := fwd, tail := tail), g)
  {}

  /** Link `i` of client `g`: the master first, then its slaves. */
  ghost function Nth(ms: seq<(Server, seq<Server>)>, g: nat, i: nat): Server
    requires g < |ms| && i <= |ms[g].1|
  {
    if i == 0 then ms[g].0 else ms[g].1[i - 1]
  }

  /** The groups after link `i` of client `g` has become `l`. */
  ghost function Refreshed(groups: seq<Chain.Group>, g: nat, i: nat, l: Chain.Link): seq<Chain.Group>
    requires g < |groups| && i < |groups[g].links|
  {
    groups[g := groups[g].(links := groups[g].links[i := l])]
  }

  ghost function RefreshedClient(groups: seq<Chain.Group>, g: nat, l: Chain.ClientLink): seq<Chain.Group>
    requires g < |groups|
  {
    groups[g := groups[g].(client := l)]
  }

  /** Popping from one link and pushing to the next amount to forwarding. */
  lemma ForwardSteps(groups: seq<Chain.Group>, g: nat, i: nat)
    requires g < |groups| && i + 1 < |groups[g].links| && groups[g].links[i].omsg != []
    ensures var l, m := groups[g].links[i], groups[g].links[i + 1];
      var a := Refreshed(groups, g, i, l.(omsg := l.omsg[1..]));
      && a[g].links[i + 1] == m
      && Chain.Forward(groups[g], i).Ok?
      && Refreshed(a, g, i + 1, Chain.Push(m, l.omsg[0])) == groups[g := Chain.Forward(groups[g], i).group]
  {}

  /** The requests of one read, admitted one after the other. */
  ghost function AdmitAll(g: Chain.Group, ops: seq<Op>): (r: Chain.Group)
    requires |g.links| >= 2
    ensures |r.links| == |g.links|
  {
    if ops == [] then g else Chain.Admit(AdmitAll(g, ops[..|ops| - 1]), ops[|ops| - 1])
  }

  /** What of them goes to the request log. */
  function Produced(ops: seq<Op>): seq<Op> {
    if ops == [] then []
    else Produced(ops[..|ops| - 1]) + if ops[|ops| - 1].cmd.Set? then [ops[|ops| - 1]] else []
  }

  /** The groups and the log once these requests of client `g` have been admitted. */
  ghost predicate Admitted(groups: seq<Chain.Group>, log: seq<Op>, g: nat, ops: seq<Op>,
                           groups': seq<Chain.Group>, log': seq<Op>) {
    && g < |groups| && |groups[g].links| >= 2
    && groups' == groups[g := AdmitAll(groups[g], ops)] && log' == log + Produced(ops)
  }

  lemma AdmitNone(groups: seq<Chain.Group>, log: seq<Op>, g: nat)
    requires g < |groups| && |groups[g].links| >= 2
    ensures Admitted(groups, log, g, [], groups, log)
  {}

  lemma AdmitStep(groups: seq<Chain.Group>, log: seq<Op>, g: nat, ops: seq<Op>, j: nat,
                  now: seq<Chain.Group>, produced: seq<Op>)
    requires j < |ops| && Admitted(groups, log, g, ops[..j], now, produced)
    ensures g < |now| && |now[g].links| >= 2
    ensures Admitted(groups, log, g, ops[..j + 1], now[g := Chain.Admit(now[g], ops[j])],
                     produced + if ops[j].cmd.Set? then [ops[j]] else [])
  {
    assert ops[..j + 1][..j] == ops[..j];
  }

  const GET_TYPE: string := "protoSpec.GetMessage"
  const PUT_TYPE: string := "protoSpec.PutMessage"

  /** The command in a frame: its type says which, and `fields` what the serialized form holds. */
  function CommandOf(m: Frame.Message, fields: string -> (Key, Val)): Cmd {
    var (key, val) := fields(m.data);
    if m.kind == PUT_TYPE then Set(key, val) else Get(key)
  }

  /** A frame that asks to read or to write. */
  ghost predicate ReadsOrWrites(m: Frame.Message) {
    Frame.Sendable(m) && m.kind in {GET_TYPE, PUT_TYPE}
  }

  /** The requests of a client's frames, numbered from `first` on. */
  function OpsOf(ms: seq<Frame.Message>, client: nat, first: nat, fields: string -> (Key, Val)): (r: seq<Op>)
    ensures |r| == |ms| && forall i :: 0 <= i < |r| ==> r[i] == Op(client, first + i, CommandOf(ms[i], fields))
  {
    seq(|ms|, i requires 0 <= i < |ms| => Op(client, first + i, CommandOf(ms[i], fields)))
  }

  /** The writes that a client's frames ask for, in order. */
  ghost function Puts(ms: seq<Frame.Message>, client: nat, first: nat, fields: string -> (Key, Val)): seq<Op> {
    if ms == [] then []
    else
      var init, m := ms[..|ms| - 1], ms[|ms| - 1];
      Puts(init, client, first, fields) +
        if m.kind == "protoSpec.PutMessage"
        then [Op(client, first + |init|, Set(fields(m.data).0, fields(m.data).1))]
        else []
  }

  /** The reads. */
  ghost function Gets(ms: seq<Frame.Message>, client: nat, first: nat, fields: string -> (Key, Val)): seq<Op> {
    if ms == [] then []
    else
      var init, m := ms[..|ms| - 1], ms[|ms| - 1];
      Gets(init, client, first, fields) +
        if m.kind == "protoSpec.GetMessage" then [Op(client, first + |init|, Get(fields(m.data).0))] else []
  }

  lemma OpsOfInit(ms: seq<Frame.Message>, client: nat, first: nat, fields: string -> (Key, Val))
    requires ms != []
    ensures var ops := OpsOf(ms, client, first, fields);
      && ops[..|ops| - 1] == OpsOf(ms[..|ms| - 1], client, first, fields)
      && ops[|ops| - 1] == Op(client, first + |ms| - 1, CommandOf(ms[|ms| - 1], fields))
  {
    hide CommandOf;
  }

  lemma AdmitPush(g: Chain.Group, op: Op)
    requires |g.links| >= 2
    ensures var t, h := |g.links| - 1, Chain.Admit(g, op);
      && |h.links| == |g.links|
      && h.links[0].imsg == g.links[0].imsg + (if op.cmd.Set? then [op] else [])
      && h.links[t].imsg == g.links[t].imsg + (if op.cmd.Get? then [op] else [])
      && forall i :: 0 < i < t ==> h.links[i] == g.links[i]
  {}

  /** Every put frame goes to the log and to the master's queue, every get frame to the last slave's. */
  lemma {:induction false} FramesQueued(g: Chain.Group, ms: seq<Frame.Message>, client: nat, first: nat,
                                        fields: string -> (Key, Val))
    requires |g.links| >= 2 && forall i :: 0 <= i < |ms| ==> ReadsOrWrites(ms[i])
    ensures Produced(OpsOf(ms, client, first, fields)) == Puts(ms, client, first, fields)
    ensures var t, h := |g.links| - 1, AdmitAll(g, OpsOf(ms, client, first, fields));
      && |h.links| == |g.links|
      && h.links[0].imsg == g.links[0].imsg + Puts(ms, client, first, fields)
      && h.links[t].imsg == g.links[t].imsg + Gets(ms, client, first, fields)
      && forall i :: 0 < i < t ==> h.links[i] == g.links[i]
    decreases |ms|
  {
    hide Chain.Admit, Frame.Sendable, OpsOf;
    if ms != [] {
      var init := ms[..|ms| - 1];
      FramesQueued(g, init, client, first, fields);
      OpsOfInit(ms, client, first, fields);
      AdmitPush(AdmitAll(g, OpsOf(init, client, first, fields)), OpsOf(ms, client, first, fields)[|ms| - 1]);
    }
  }

  /** Cuts the frames out of a read and decodes them. */
  method ReadOps(msg: Bytes, client: nat, first: nat, fields: string -> (Key, Val), ghost ms: seq<Frame.Message>)
    returns (ops: seq<Op>)
    requires msg.Valid() && msg.Content() == Frame.EncodeAll(ms)
    requires forall i :: 0 <= i < |ms| ==> Frame.Sendable(ms[i])
    modifies msg`data, msg`size
    ensures ops == OpsOf(ms, client, first, fields)
  {
    hide Frame.EncodeAll, Frame.Sendable, CommandOf, Bytes.Valid, Bytes.Content;
    ops := [];
    assert ms[0..] == ms;
    while msg.size != 0
      invariant msg.Valid() && |ops| <= |ms| && msg.Content() == Frame.EncodeAll(ms[|ops|..])
      invariant forall i :: 0 <= i < |ops| ==> ops[i] == Op(client, first + i, CommandOf(ms[i], fields))
      decreases msg.size
    {
      var m := ReadFrame(msg, ms, |ops|);
      ops := ops + [Op(client, first + |ops|, CommandOf(m, fields))];
    }
    NoneLeft(msg);
    FramesLeft(ms, |ops|);
  }

  lemma NoneLeft(msg: Bytes)
    requires msg.Valid() && msg.size == 0
    ensures msg.Content() == ""
  {}

  lemma FramesLeft(ms: seq<Frame.Message>, i: nat)
    requires i <= |ms| && Frame.EncodeAll(ms[i..]) == ""
    ensures i == |ms|
  {}

  method ReadFrame(msg: Bytes, ghost ms: seq<Frame.Message>, ghost i: nat) returns (m: Frame.Message)
    requires msg.Valid() && msg.size != 0 && i <= |ms| && msg.Content() == Frame.EncodeAll(ms[i..])
    requires forall k :: 0 <= k < |ms| ==> Frame.Sendable(ms[k])
    modifies msg`data, msg`size
    ensures i < |ms| && m == ms[i] && msg.Valid() && msg.Content() == Frame.EncodeAll(ms[i + 1..])
    ensures msg.size < old(msg.size)
  {
    FrameNext(ms, i);
    hide Frame.Parse, Frame.EncodeAll, Frame.Sendable;
    var req := Frame.CutOne(msg);
    m := Frame.Parse(req.value.Content()).value;
  }

  /** What is left begins with the next frame. */
  lemma FrameNext(ms: seq<Frame.Message>, i: nat)
    requires i <= |ms| && Frame.EncodeAll(ms[i..]) != "" && forall k :: 0 <= k < |ms| ==> Frame.Sendable(ms[k])
    ensures i < |ms|
    ensures var s, n := Frame.EncodeAll(ms[i..]), Frame.Total(ms[i]);
      && Frame.Parse(s) == Some(ms[i]) && n <= |s| && s[n..] == Frame.EncodeAll(ms[i + 1..])
      && Frame.Parse(s[..n]) == Some(ms[i])
  {
    var m, rest := ms[i], Frame.EncodeAll(ms[i + 1..]);
    assert ms[i..][1..] == ms[i + 1..];
    Frame.ParseEncoded(m, rest);
    Frame.ParseEncoded(m, "");
    hide Frame.Encode, Frame.Parse;
    assert Frame.Encode(m) + "" == Frame.Encode(m);
    assert (Frame.Encode(m) + rest)[..Frame.Total(m)] == Frame.Encode(m);
  }

  /** The flags the kind of a request sets, before the request is queued. */
  ghost function Flagged(g: Chain.Group, cmd: Cmd): Chain.Group
    requires |g.links| >= 2
  {
    var t := |g.links| - 1;
    if cmd.Set? then g.(links := g.links[0 := g.links[0].(fwd := true, tail := false)])
    else g.(links := g.links[0 := g.links[0].(fwd := false)][t := g.links[t].(fwd := false, tail := true)])
  }

  lemma FlagThenPush(groups: seq<Chain.Group>, g: nat, op: Op)
    requires g < |groups| && |groups[g].links| >= 2
    ensures var f := groups[g := Flagged(groups[g], op.cmd)];
      var i := if op.cmd.Set? then 0 else |groups[g].links| - 1;
      && i < |f[g].links|
      && Refreshed(f, g, i, Chain.Push(f[g].links[i], op)) == groups[g := Chain.Admit(groups[g], op)]
  {
    var links := groups[g].links;
    var f := Flagged(groups[g], op.cmd).links;
    if op.cmd.Set? {
      assert f[0 := Chain.Push(f[0], op)] == Chain.Admit(groups[g], op).links;
    } else {
      var t := |links| - 1;
      assert f[t := Chain.Push(f[t], op)] == Chain.Admit(groups[g], op).links;
    }
  }

  lemma FlagsOfRead(g: Chain.Group, cmd: Cmd)
    requires |g.links| >= 2 && cmd.Get?
    ensures Flagged(g, cmd) == Flagged(g, Get(""))
  {}

  lemma FlagBoth(groups: seq<Chain.Group>, g: nat, tail: bool)
    requires g < |groups| && |groups[g].links| >= 2 && groups[g].links[0].tail == tail
    ensures var t, links := |groups[g].links| - 1, groups[g].links;
      var a := Refreshed(groups, g, 0, links[0].(fwd := false, tail := tail));
      && |a[g].links| == t + 1 && a[g].links[t] == links[t]
      && Refreshed(a, g, t, links[t].(fwd := false, tail := true)) == groups[g := Flagged(groups[g], Get(""))]
  {}

  /** The descriptors of a new client and of its links added to those known before. */
  ghost function Located(place: map<nat, (nat, int)>, g: nat, fds: seq<nat>, client: nat): map<nat, (nat, int)> {
    if fds == [] then place[client := (g, -1)]
    else Located(place, g, fds[..|fds| - 1], client)[fds[|fds| - 1] := (g, |fds| - 1)]
  }

  lemma LocatedAt(place: map<nat, (nat, int)>, g: nat, fds: seq<nat>, client: nat)
    requires forall i, j :: 0 <= i < j < |fds| ==> fds[i] != fds[j]
    requires client !in place && forall i :: 0 <= i < |fds| ==> fds[i] !in place && fds[i] != client
    ensures var r := Located(place, g, fds, client);
      && (forall x :: x in place ==> x in r && r[x] == place[x])
      && (forall i :: 0 <= i < |fds| ==> fds[i] in r && r[fds[i]] == (g, i))
      && client in r && r[client] == (g, -1)
  {
    if fds != [] {
      LocatedAt(place, g, fds[..|fds| - 1], client);
    }
  }

  class NetworkServer {
    const replicas: nat
    const fdes: Fdevents
    /** Each client's master with its slaves, in the order of the chain. */
    var msMap: seq<(Server, seq<Server>)>
    var clients: seq<Client>
    var kafka: seq<Op>

    /** The links as the step system sees them, and the place each descriptor has. */
    ghost var model: seq<Chain.Group>
    ghost var place: map<nat, (nat, int)>
    ghost var Repr: set<object>

    ghost function ViewOf(l: Server): Chain.Link
      reads l, fdes
    {
      Chain.Link(l.imsgQ, l.omsgQ, l.fwdToReplicas, l.tail,
                 fdes.In(l.fd), fdes.Out(l.fd), l.error)
    }

    ghost function ViewOfClient(l: Client): Chain.ClientLink
      reads l, fdes
    {
      Chain.ClientLink(l.imsgQ, fdes.In(l.fd), fdes.Out(l.fd), l.error)
    }

    ghost predicate Shape()
      reads this
    {
      && replicas >= 1
      && |msMap| == |clients| == |model|
      && (forall g :: 0 <= g < |msMap| ==> |msMap[g].1| == replicas && |model[g].links| == replicas + 1)
      && this in Repr && fdes in Repr
      && (forall g, i :: 0 <= g < |msMap| && 0 <= i <= replicas ==> Nth(msMap, g, i) in Repr)
      && (forall g :: 0 <= g < |clients| ==> clients[g] in Repr)
    }

    /** No two links share a descriptor. */
    ghost predicate Placed()
      reads this
      requires Shape()
    {
      && (forall g, i :: 0 <= g < |msMap| && 0 <= i <= replicas ==>
            Nth(msMap, g, i).fd in place && place[Nth(msMap, g, i).fd] == (g, i))
      && (forall g :: 0 <= g < |clients| ==> clients[g].fd in place && place[clients[g].fd] == (g, -1))
    }

    ghost predicate Viewed()
      reads this, Repr
      requires Shape()
    {
      && (forall g, i :: 0 <= g < |msMap| && 0 <= i <= replicas ==>
            && ViewOf(Nth(msMap, g, i)) == model[g].links[i]
            && Nth(msMap, g, i).slaveNumber == i - 1
            && OwnedLink(model[g].links[i], g))
      && (forall g :: 0 <= g < |clients| ==>
            ViewOfClient(clients[g]) == model[g].client && clients[g].dataletConn == msMap[g].0)
    }

    ghost predicate Valid()
      reads this, Repr
    {
      Shape() && Placed() && fdes.Valid() && Viewed()
    }

    ghost predicate Here(g: nat, i: nat, l: Server)
      reads this
    {
      g < |msMap| && i <= |msMap[g].1| && l == Nth(msMap, g, i)
    }

    /** Nothing but the queues and the flags of links changes. */
    twostate predicate Same()
      reads this
    {
      msMap == old(msMap) && clients == old(clients) && place == old(place) && Repr == old(Repr)
    }

    constructor (replicas: nat)
      requires replicas >= 1
      ensures Valid() && this.replicas == replicas && msMap == [] && kafka == []
      ensures fresh(Repr)
    {
      this.replicas := replicas;
      fdes := new Fdevents();
      msMap, clients, kafka, model, place := [], [], [], [], map[];
      new;
      Repr := {this, fdes};
    }

    // -------------------------------------------------------------- a new client

    /** A link `l` that has just been connected as link `i` of the next client. */
    ghost predicate Connected(l: Server, i: nat, fd: nat)
      reads l
    {
      l.fd == fd && l.slaveNumber == i - 1 && l.imsgQ == [] && l.omsgQ == [] && !l.error
    }

    /** Where the table lists link `i` when the master is entry `m`. */
    static function Entry(m: nat, i: nat): nat {
      if i == 0 then m else if i <= m then i - 1 else i
    }

    /** One client more, and nothing else has changed. */
    twostate lemma GroupAdded(fds: seq<nat>)
      requires old(Valid()) && fdes.Valid() && replicas + 1 == |fds|
      requires |msMap| == |old(msMap)| + 1 == |clients| == |model|
      requires |old(clients)| == |old(msMap)| == |old(model)|
      requires msMap[..|old(msMap)|] == old(msMap) && clients[..|old(msMap)|] == old(clients)
      requires model[..|old(msMap)|] == old(model) && old(Repr) <= Repr && this in Repr && fdes in Repr
      requires forall o: object {:trigger o in Repr} :: o in old(Repr) && o != this ==> unchanged(o)
      requires var g := |old(msMap)|;
        && |msMap[g].1| == replicas && |model[g].links| == replicas + 1
        && (forall i :: 0 <= i <= replicas ==>
              && Connected(Nth(msMap, g, i), i, fds[i]) && Nth(msMap, g, i) in Repr
              && model[g].links[i] == ViewOf(Nth(msMap, g, i))
              && fds[i] in place && place[fds[i]] == (g, i))
        && clients[g] in Repr && clients[g].fd in place && place[clients[g].fd] == (g, -1)
        && ViewOfClient(clients[g]) == model[g].client && clients[g].dataletConn == msMap[g].0
      requires forall x :: x in old(place) ==> x in place && place[x] == old(place)[x]
      ensures Valid()
    {
      var n := |old(msMap)|;
      forall h, j | 0 <= h < |msMap| && 0 <= j <= replicas
        ensures Nth(msMap, h, j) in Repr
        ensures Nth(msMap, h, j).fd in place && place[Nth(msMap, h, j).fd] == (h, j)
        ensures ViewOf(Nth(msMap, h, j)) == model[h].links[j]
        ensures Nth(msMap, h, j).slaveNumber == j - 1 && OwnedLink(model[h].links[j], h)
      {
        if h < n {
          assert msMap[h] == old(msMap)[h] && model[h] == old(model)[h];
          assert Nth(msMap, h, j) == old(Nth(msMap, h, j));
          assert old(Nth(msMap, h, j)) in old(Repr);
        } else {
          assert Connected(Nth(msMap, n, j), j, fds[j]);
        }
      }
      forall h | 0 <= h < |clients|
        ensures clients[h] in Repr && clients[h].fd in place && place[clients[h].fd] == (h, -1)
        ensures ViewOfClient(clients[h]) == model[h].client && clients[h].dataletConn == msMap[h].0
      {
        if h < n {
          assert clients[h] == old(clients)[h] && old(clients)[h] in old(Repr);
          assert model[h] == old(model)[h] && msMap[h] == old(msMap)[h];
        }
      }
    }

    /** The loop over the table: the master wherever it stands, the slaves numbered as they come. */
    method ConnectAll(table: seq<(Role, nat)>, ghost m: nat) returns (master: Server, slaves: seq<Server>)
      requires m < |table| && forall k :: 0 <= k < |table| ==> (table[k].0 == Master <==> k == m)
      ensures |slaves| == |table| - 1
      ensures fresh(master) && Connected(master, 0, table[m].1)
      ensures forall j :: 0 <= j < |slaves| ==>
        fresh(slaves[j]) && Connected(slaves[j], j + 1, table[Entry(m, j + 1)].1)
    {
      var first: Server? := null;
      slaves := [];
      for k := 0 to |table|
        invariant |slaves| == if k <= m then k else k - 1
        invariant first != null <==> m < k
        invariant first != null ==> fresh(first) && Connected(first, 0, table[m].1)
        invariant forall j :: 0 <= j < |slaves| ==>
          fresh(slaves[j]) && Connected(slaves[j], j + 1, table[Entry(m, j + 1)].1)
      {
        match table[k].0
        case Master =>
          first := new Link(table[k].1, -1);
        case Slave =>
          var slave := new Link(table[k].1, |slaves|);
          slaves := slaves + [slave];
      }
      master := first;
    }

    ghost function Views(master: Server, slaves: seq<Server>): (r: seq<Chain.Link>)
      reads fdes, master, slaves
      ensures |r| == |slaves| + 1 && r[0] == ViewOf(master)
      ensures forall i :: 0 < i < |r| ==> r[i] == ViewOf(slaves[i - 1])
    {
      if slaves == [] then [ViewOf(master)]
      else Views(master, slaves[..|slaves| - 1]) + [ViewOf(slaves[|slaves| - 1])]
    }

    static ghost function Objects(slaves: seq<Server>): (r: set<object>)
      ensures forall i :: 0 <= i < |slaves| ==> slaves[i] in r
    {
      set s | s in slaves
    }

    lemma Sized()
      requires Valid()
      ensures |msMap| == |clients| == |model| && this in Repr && fdes in Repr && fdes.Valid()
    {}

    /** Files the links of a new client. */
    method AddGroup(conn: Client, master: Server, slaves: seq<Server>, ghost fds: seq<nat>)
      requires Valid() && |slaves| == replicas && |fds| == replicas + 1
      requires conn !in Repr && conn.fd !in place && conn.imsgQ == [] && !conn.error
      requires forall i, j :: 0 <= i < j < |fds| ==> fds[i] != fds[j]
      requires forall i :: 0 <= i < |fds| ==> fds[i] !in place && fds[i] != conn.fd
      requires Connected(master, 0, fds[0])
      requires forall j :: 0 <= j < |slaves| ==> Connected(slaves[j], j + 1, fds[j + 1])
      modifies this, conn`dataletConn
      ensures Valid() && Repr == old(Repr) + {conn, master} + Objects(slaves) && kafka == old(kafka)
      ensures msMap == old(msMap) + [(master, slaves)] && clients == old(clients) + [conn] && conn.dataletConn == master
      ensures |model| == |msMap| && model[..|old(msMap)|] == old(model)
      ensures Chain.Fresh(model[|old(msMap)|], replicas)
    {
      hide Valid, Shape, Viewed, Placed, Located, Views, Objects, Fdevents.Valid;
      Sized();
      ghost var g := |msMap|;
      LocatedAt(place, g, fds, conn.fd);
      conn.dataletConn := master;
      msMap, clients := msMap + [(master, slaves)], clients + [conn];
      place := Located(place, g, fds, conn.fd);
      Repr := Repr + {conn, master} + Objects(slaves);
      model := model + [Chain.Group(Views(master, slaves), ViewOfClient(conn))];
      forall i | 0 <= i <= replicas
        ensures Connected(Nth(msMap, g, i), i, fds[i]) && Nth(msMap, g, i) in Repr
        ensures model[g].links[i] == ViewOf(Nth(msMap, g, i))
        ensures model[g].links[i].imsg == model[g].links[i].omsg == [] && !model[g].links[i].error
      {
      }
      GroupAdded(fds);
    }

    /** establish_server_conn_each: an accepted client gets links of its own to every datalet. */
    method Establish(conn: Client, table: seq<(Role, nat)>, ghost m: nat)
      requires Valid() && |table| == replicas + 1
      requires m < |table| && forall k :: 0 <= k < |table| ==> (table[k].0 == Master <==> k == m)
      requires forall j, k :: 0 <= j < k < |table| ==> table[j].1 != table[k].1
      requires forall k :: 0 <= k < |table| ==> table[k].1 !in place && table[k].1 != conn.fd
      requires conn !in Repr && conn.fd !in place && conn.imsgQ == [] && !conn.error
      modifies this, conn`dataletConn
      ensures Valid() && fresh(Repr - old(Repr) - {conn}) && kafka == old(kafka)
      ensures |msMap| == |old(msMap)| + 1 && msMap[..|old(msMap)|] == old(msMap)
      ensures clients == old(clients) + [conn] && conn.dataletConn == msMap[|old(msMap)|].0
      ensures var (master, slaves) := msMap[|old(msMap)|];
        && master.fd == table[m].1 && |slaves| == replicas
        && forall j :: 0 <= j < replicas ==>
             slaves[j].fd == table[if j < m then j else j + 1].1 && slaves[j].slaveNumber == j
      ensures |model| == |msMap| && model[..|old(msMap)|] == old(model)
      ensures Chain.Fresh(model[|old(msMap)|], replicas)
    {
      hide Valid, Chain.Fresh;
      var master, slaves := ConnectAll(table, m);
      ghost var fds := seq(replicas + 1, (i: nat) requires i <= replicas => table[Entry(m, i)].1);
      AddGroup(conn, master, slaves, fds);
    }

    // -------------------------------------------------------------- lookups

    /** get_slave_number: the first group whose master this is, then the slave at that index. */
    method GetSlaveNumber(master: Server, number: int) returns (r: Lookup)
      ensures r.NoMaster? <==> forall k :: 0 <= k < |msMap| ==> msMap[k].0 != master
      ensures !r.NoMaster? ==> exists k ::
        && 0 <= k < |msMap| && msMap[k].0 == master
        && (forall h :: 0 <= h < k ==> msMap[h].0 != master)
        && r == (if 0 <= number < |msMap[k].1| then Hit(msMap[k].1[number]) else OutOfRange)
    {
      for k := 0 to |msMap|
        invariant forall h :: 0 <= h < k ==> msMap[h].0 != master
      {
        if msMap[k].0 == master {
          if 0 <= number < |msMap[k].1| {
            return Hit(msMap[k].1[number]);
          }
          return OutOfRange;
        }
      }
      return NoMaster;
    }

    /** get_master_of_slave: the master of the first group that lists the slave. */
    method GetMasterOfSlave(slave: Server) returns (r: Lookup)
      ensures r.NoMaster? <==> forall k :: 0 <= k < |msMap| ==> slave !in msMap[k].1
      ensures !r.NoMaster? ==> exists k ::
        && 0 <= k < |msMap| && slave in msMap[k].1 && r == Hit(msMap[k].0)
        && (forall h :: 0 <= h < k ==> slave !in msMap[h].1)
    {
      for k := 0 to |msMap|
        invariant forall h :: 0 <= h < k ==> slave !in msMap[h].1
      {
        for j := 0 to |msMap[k].1|
          invariant forall i :: 0 <= i < j ==> msMap[k].1[i] != slave
        {
          if msMap[k].1[j] == slave {
            return Hit(msMap[k].0);
          }
        }
      }
      return NoMaster;
    }

    lemma Unique(g: nat, i: nat, h: nat, j: nat)
      requires Shape() && Placed()
      requires g < |msMap| && i <= replicas && h < |msMap| && j <= replicas && Nth(msMap, g, i) == Nth(msMap, h, j)
      ensures g == h && i == j
    {}

    // -------------------------------------------------------------- changes to one link

    /** Only link `at.1` of client `at.0` has changed, and the model says how. */
    twostate lemma LinkChanged(at: (nat, nat))
      requires old(Valid()) && Same() && fdes.Valid()
      requires at.0 < |msMap| && at.1 <= replicas
      requires var l := Nth(msMap, at.0, at.1);
        && (forall o: object {:trigger o in Repr} :: o in Repr && o != this && o != fdes && o != l ==> unchanged(o))
        && (forall x: nat :: x != l.fd ==> fdes.Flags(x) == old(fdes.Flags(x)))
        && l.slaveNumber == old(l.slaveNumber) && OwnedLink(ViewOf(l), at.0)
        && model == Refreshed(old(model), at.0, at.1, ViewOf(l))
      ensures Valid()
    {
      var (g, i) := at;
      var l := Nth(msMap, g, i);
      assert Shape() && Placed();
      hide OwnedLink;
      forall h, j | 0 <= h < |msMap| && 0 <= j <= replicas
        ensures ViewOf(Nth(msMap, h, j)) == model[h].links[j]
        ensures Nth(msMap, h, j).slaveNumber == j - 1
        ensures OwnedLink(model[h].links[j], h)
      {
        if h != g || j != i {
          assert Nth(msMap, h, j) in Repr;
          assert place[Nth(msMap, h, j).fd] == (h, j) && place[l.fd] == (g, i);
        }
      }
      forall h | 0 <= h < |clients|
        ensures ViewOfClient(clients[h]) == model[h].client && clients[h].dataletConn == msMap[h].0
      {
        assert clients[h] in Repr && place[clients[h].fd] == (h, -1) && place[l.fd] == (g, i);
        assert clients[h] as object != l;
      }
    }

    twostate lemma ClientChanged(g: nat)
      requires old(Valid()) && Same() && g < |clients| && fdes.Valid()
      requires var l := clients[g];
        && (forall o: object {:trigger o in Repr} :: o in Repr && o != this && o != fdes && o != l ==> unchanged(o))
        && (forall x: nat :: x != l.fd ==> fdes.Flags(x) == old(fdes.Flags(x)))
        && l.dataletConn == old(l.dataletConn)
        && model == RefreshedClient(old(model), g, ViewOfClient(l))
      ensures Valid()
    {
      var l := clients[g];
      assert Shape() && Placed();
      forall h, j | 0 <= h < |msMap| && 0 <= j <= replicas
        ensures ViewOf(Nth(msMap, h, j)) == model[h].links[j]
        ensures Nth(msMap, h, j).slaveNumber == j - 1
        ensures OwnedLink(model[h].links[j], h)
      {
        assert Nth(msMap, h, j) in Repr;
        assert place[Nth(msMap, h, j).fd] == (h, j) && place[l.fd] == (g, -1);
      }
      forall h | 0 <= h < |clients|
        ensures ViewOfClient(clients[h]) == model[h].client && clients[h].dataletConn == msMap[h].0
      {
        assert clients[h] in Repr && place[clients[h].fd] == (h, -1) && place[l.fd] == (g, -1);
      }
    }

    /** What validity says about one link. */
    lemma Seen(g: nat, i: nat, l: Server)
      requires Valid() && Here(g, i, l)
      ensures |model| == |msMap| && i < |model[g].links| == replicas + 1 && |msMap[g].1| == replicas >= 1
      ensures ViewOf(l) == model[g].links[i] && l.slaveNumber == i - 1
      ensures OwnedLink(model[g].links[i], g) && fdes.Valid() && this in Repr && fdes in Repr && l in Repr
    {}

    lemma SeenClient(g: nat, l: Client)
      requires Valid() && g < |clients| && l == clients[g]
      ensures |model| == |msMap| == |clients|
      ensures ViewOfClient(l) == model[g].client && l.dataletConn == msMap[g].0
      ensures fdes.Valid() && this in Repr && fdes in Repr && l in Repr
    {}

    /** Subscribes a link to writability if it was idle, and queues a request on it. */
    method PushBack(ghost g: nat, ghost i: nat, l: Server, op: Op)
      requires Valid() && Here(g, i, l) && op.client == g
      modifies l`imsgQ, fdes, this`model
      ensures Valid() && Same()
      ensures model == Refreshed(old(model), g, i, Chain.Push(old(model)[g].links[i], op))
    {
      if l.imsgQ == [] {
        var ret := fdes.Set(l.fd, FDEVENT_OUT);
      }
      l.imsgQ := l.imsgQ + [op];
      model := Refreshed(model, g, i, ViewOf(l));
      LinkChanged((g, i));
    }

    /** Takes the oldest sent request off the link. */
    method PopSent(ghost g: nat, ghost i: nat, l: Server) returns (op: Op)
      requires Valid() && Here(g, i, l) && l.omsgQ != []
      modifies l`omsgQ, this`model
      ensures Valid() && Same() && op.client == g
      ensures var was := old(model)[g].links[i];
        && was.omsg != [] && op == was.omsg[0]
        && model == Refreshed(old(model), g, i, was.(omsg := was.omsg[1..]))
    {
      op := l.omsgQ[0];
      l.omsgQ := l.omsgQ[1..];
      model := Refreshed(model, g, i, ViewOf(l));
      LinkChanged((g, i));
    }

    method MarkError(ghost g: nat, ghost i: nat, l: Server)
      requires Valid() && Here(g, i, l)
      modifies l`error, fdes, this`model
      ensures Valid() && Same()
      ensures model == Refreshed(old(model), g, i, Chain.Fail(old(model)[g].links[i]))
    {
      l.error := true;
      var ret := fdes.Del(l.fd);
      model := Refreshed(model, g, i, ViewOf(l));
      LinkChanged((g, i));
    }

    /** Wakes the client's link if it was idle and queues a reply on it. */
    method PushReply(ghost g: nat, l: Client, r: Reply)
      requires Valid() && g < |clients| && l == clients[g]
      modifies l`imsgQ, fdes, this`model
      ensures Valid() && Same()
      ensures model == RefreshedClient(old(model), g, Chain.PushReply(old(model)[g].client, r))
    {
      if l.imsgQ == [] {
        var ret := fdes.Set(l.fd, FDEVENT_OUT);
      }
      l.imsgQ := l.imsgQ + [r];
      model := RefreshedClient(model, g, ViewOfClient(l));
      ClientChanged(g);
    }

    // -------------------------------------------------------------- handlers

    /** The link and its subscription after the oldest request has been sent. */
    method SendOldest(conn: Server, written: bool) returns (ok: bool)
      requires fdes.Valid() && conn as object != fdes
      modifies conn, fdes
      ensures fdes.Valid() && conn.slaveNumber == old(conn.slaveNumber)
      ensures forall x: nat :: x != conn.fd ==> fdes.Flags(x) == old(fdes.Flags(x))
      ensures ok <==> written || old(conn.imsgQ) == []
      ensures ViewOf(conn) == Chain.Send(old(ViewOf(conn)), written)
      ensures old(conn.imsgQ) == [] ==>
        conn.imsgQ == [] && conn.omsgQ == old(conn.omsgQ) && conn.error == old(conn.error) && !fdes.Out(conn.fd)
      ensures old(conn.imsgQ) != [] ==> conn.imsgQ == old(conn.imsgQ)[1..]
      ensures old(conn.imsgQ) != [] && written ==>
        conn.omsgQ == old(conn.omsgQ) + [old(conn.imsgQ)[0]] && conn.error == old(conn.error) && fdes.In(conn.fd)
      ensures old(conn.imsgQ) != [] && !written ==>
        conn.omsgQ == old(conn.omsgQ) && conn.error && !fdes.In(conn.fd) && !fdes.Out(conn.fd)
    {
      ok := true;
      if conn.imsgQ == [] {
        var ret := fdes.Clr(conn.fd, FDEVENT_OUT);
        return;
      }
      var smsg := conn.imsgQ[0];
      conn.imsgQ := conn.imsgQ[1..];
      if !written {
        conn.error := true;
        var ret := fdes.Del(conn.fd);
        ok := false;
      } else {
        conn.omsgQ := conn.omsgQ + [smsg];
        var ret := fdes.Set(conn.fd, FDEVENT_IN);
      }
    }

    /** req_send and replica_req_send: `written` is whether the socket took the request. */
    method ReqSend(ghost g: nat, ghost i: nat, conn: Server, written: bool) returns (ok: bool)
      requires Valid() && Here(g, i, conn)
      modifies conn, fdes, this`model
      ensures Valid() && Same()
      ensures ok <==> written || old(conn.imsgQ) == []
      ensures model == Refreshed(old(model), g, i, Chain.Send(old(model)[g].links[i], written))
      ensures old(conn.imsgQ) == [] ==>
        conn.imsgQ == [] && conn.omsgQ == old(conn.omsgQ) && conn.error == old(conn.error) && !fdes.Out(conn.fd)
      ensures old(conn.imsgQ) != [] ==> conn.imsgQ == old(conn.imsgQ)[1..]
      ensures old(conn.imsgQ) != [] && written ==>
        conn.omsgQ == old(conn.omsgQ) + [old(conn.imsgQ)[0]] && conn.error == old(conn.error) && fdes.In(conn.fd)
      ensures old(conn.imsgQ) != [] && !written ==>
        conn.omsgQ == old(conn.omsgQ) && conn.error && !fdes.In(conn.fd) && !fdes.Out(conn.fd)
    {
      Seen(g, i, conn);
      OwnedSend(ViewOf(conn), g, written);
      hide Viewed, Placed, Shape, OwnedLink, ViewOf, Chain.Send;
      ok := SendOldest(conn, written);
      model := Refreshed(model, g, i, ViewOf(conn));
      LinkChanged((g, i));
    }

    /** rsp_send: writes the oldest reply to the client. */
    method RspSend(ghost g: nat, conn: Client, written: bool) returns (ok: bool)
      requires Valid() && g < |clients| && conn == clients[g]
      modifies conn`imsgQ, conn`error, fdes, this`model
      ensures Valid() && Same()
      ensures ok <==> written || old(conn.imsgQ) == []
      ensures model == RefreshedClient(old(model), g, Chain.SendReply(old(model)[g].client, written))
      ensures old(conn.imsgQ) == [] ==> conn.imsgQ == [] && conn.error == old(conn.error) && !fdes.Out(conn.fd)
      ensures old(conn.imsgQ) != [] ==> conn.imsgQ == old(conn.imsgQ)[1..]
      ensures old(conn.imsgQ) != [] && !written ==> conn.error && !fdes.In(conn.fd) && !fdes.Out(conn.fd)
    {
      SeenClient(g, conn);
      hide Viewed, Placed, Shape;
      ok := true;
      if conn.imsgQ == [] {
        var ret := fdes.Clr(conn.fd, FDEVENT_OUT);
      } else {
        conn.imsgQ := conn.imsgQ[1..];
        if !written {
          conn.error := true;
          var ret := fdes.Del(conn.fd);
          ok := false;
        }
      }
      model := RefreshedClient(model, g, ViewOfClient(conn));
      ClientChanged(g);
    }

    /** The slave the lookup finds is the next link of the same client. */
    lemma NextLink(g: nat, i: nat, k: nat)
      requires Valid() && g < |msMap| && i < replicas && k < |msMap| && msMap[k].0 == msMap[g].0
      ensures k == g && 0 <= i < |msMap[k].1| && Here(g, i + 1, msMap[k].1[i])
    {
      assert Nth(msMap, k, 0) == Nth(msMap, g, 0);
      Unique(k, 0, g, 0);
    }

    lemma OwnMaster(g: nat, i: nat, k: nat)
      requires Valid() && g < |msMap| && 1 <= i <= replicas && k < |msMap|
      requires Nth(msMap, g, i) in msMap[k].1
      ensures k == g
    {
      var j :| 0 <= j < |msMap[k].1| && msMap[k].1[j] == Nth(msMap, g, i);
      assert Nth(msMap, k, j + 1) == Nth(msMap, g, i);
      Unique(k, j + 1, g, i);
    }

    lemma Listed(g: nat, i: nat)
      requires Valid() && g < |msMap| && 1 <= i <= replicas
      ensures Nth(msMap, g, i) in msMap[g].1
    {}

    /** The lookup of slave `number` of a master always succeeds, with the link after it. */
    method NextSlave(ghost g: nat, master: Server, number: nat) returns (slave: Server)
      requires Valid() && Here(g, 0, master) && number < replicas
      ensures Here(g, number + 1, slave)
    {
      var found := GetSlaveNumber(master, number);
      ghost var k :| 0 <= k < |msMap| && msMap[k].0 == master
        && found == (if 0 <= number < |msMap[k].1| then Hit(msMap[k].1[number]) else OutOfRange);
      NextLink(g, number, k);
      slave := found.link;
    }

    /** Hands the oldest sent request of a link to the next one. */
    method ForwardTo(ghost g: nat, ghost i: nat, conn: Server, slave: Server) returns (ok: bool)
      requires Valid() && Here(g, i, conn) && Here(g, i + 1, slave)
      modifies conn`omsgQ, slave`imsgQ, fdes, this`model
      ensures Valid() && Same()
      ensures |old(model)| == |msMap| && i + 1 < |old(model)[g].links|
      ensures match Chain.Forward(old(model)[g], i)
        case Ok(h) => ok && model == old(model)[g := h]
        case Abort => !ok
    {
      Seen(g, i, conn);
      hide Viewed, Placed, Valid, Shape, OwnedLink;
      if conn.omsgQ == [] {
        return false;
      }
      ForwardSteps(model, g, i);
      var pmsg := PopSent(g, i, conn);
      PushBack(g, i + 1, slave, pmsg);
      ok := true;
    }

    /** Takes the oldest sent request off a link and queues its response for its owner. */
    method DeliverFrom(ghost g: nat, ghost i: nat, conn: Server, msg: Reply) returns (ok: bool)
      requires Valid() && Here(g, i, conn)
      modifies Repr
      ensures Valid() && Same() && kafka == old(kafka)
      ensures |old(model)| == |msMap| && i < |old(model)[g].links|
      ensures match Chain.Deliver(old(model)[g], i, msg)
        case Ok(h) => ok && model == old(model)[g := h]
        case Abort => !ok
    {
      Seen(g, i, conn);
      hide Viewed, Placed, Valid, Shape, OwnedLink;
      if conn.omsgQ == [] {
        return false;
      }
      var pmsg := PopSent(g, i, conn);
      PushReply(g, clients[pmsg.client], msg);
      assert model == old(model)[g := Chain.Deliver(old(model)[g], i, msg).group];
      ok := true;
    }

    /** rsp_recv: a response, or a failed read, on the link of a master. */
    method RspRecv(ghost g: nat, conn: Server, msg: Option<Reply>) returns (ok: bool)
      requires Valid() && Here(g, 0, conn)
      modifies Repr
      ensures Valid() && Same() && kafka == old(kafka)
      ensures |old(model)| == |msMap| && |old(model)[g].links| >= 2
      ensures match Chain.Recv(old(model)[g], 0, msg)
        case Ok(h) => ok && model == old(model)[g := h]
        case Abort => !ok
    {
      assert g < |model| == |msMap| && |model[g].links| == replicas + 1 >= 2
        && conn.fwdToReplicas == model[g].links[0].fwd by {
        Seen(g, 0, conn);
      }
      hide Viewed, Placed, Valid, OwnedLink, Shape, ViewOf, ViewOfClient, Chain.Forward, Chain.Deliver;
      match msg
      case None =>
        MarkError(g, 0, conn);
        ok := true;
      case Some(r) =>
        if conn.fwdToReplicas {
          var slave := NextSlave(g, conn, 0);
          ok := ForwardTo(g, 0, conn, slave);
        } else {
          ok := DeliverFrom(g, 0, conn, r);
        }
    }

    /** The read of the last link that was waiting for the tail's answer has been answered. */
    method ClearTail(ghost g: nat, ghost i: nat, l: Server)
      requires Valid() && Here(g, i, l)
      modifies l`tail, this`model
      ensures Valid() && Same()
      ensures model == Refreshed(old(model), g, i, old(model)[g].links[i].(tail := false))
    {
      l.tail := false;
      model := Refreshed(model, g, i, ViewOf(l));
      LinkChanged((g, i));
    }

    method PassDown(ghost g: nat, ghost i: nat, conn: Server, master: Server) returns (ok: bool)
      requires Valid() && Here(g, i, conn) && 1 <= i < replicas && Here(g, 0, master) && conn.slaveNumber == i - 1
      modifies Repr
      ensures Valid() && Same() && kafka == old(kafka)
      ensures |old(model)| == |msMap| && i + 1 < |old(model)[g].links|
      ensures match Chain.Forward(old(model)[g], i)
        case Ok(h) => ok && model == old(model)[g := h]
        case Abort => !ok
    {
      hide Viewed, Placed, Valid, OwnedLink, Shape, ViewOf, ViewOfClient, Chain.Forward;
      assert this in Repr && fdes in Repr && conn in Repr by {
        Seen(g, i, conn);
      }
      var slave := NextSlave(g, master, conn.slaveNumber + 1);
      assert slave in Repr by {
        Seen(g, i + 1, slave);
      }
      ok := ForwardTo(g, i, conn, slave);
    }

    /** The branch for writes: on to the next slave, or to the client from the last one. */
    method PassOn(ghost g: nat, ghost i: nat, conn: Server, master: Server, r: Reply) returns (ok: bool)
      requires Valid() && Here(g, i, conn) && 1 <= i && Here(g, 0, master)
      modifies Repr
      ensures Valid() && Same() && kafka == old(kafka)
      ensures |old(model)| == |msMap| && 1 <= i < |old(model)[g].links| == replicas + 1
      ensures var was := old(model)[g];
        match (if i == replicas then Chain.Deliver(was, i, r)
               else if was.links[i].omsg != [] && was.links[i].omsg[0].cmd.Get? then Chain.Abort
               else Chain.Forward(was, i))
        case Ok(h) => ok && model == old(model)[g := h]
        case Abort => !ok
    {
      assert g < |model| == |msMap| && i < |model[g].links| == replicas + 1
        && conn.slaveNumber == i - 1 && conn.omsgQ == model[g].links[i].omsg by {
        Seen(g, i, conn);
      }
      hide Viewed, Placed, Valid, OwnedLink, Shape, ViewOf, ViewOfClient, Chain.Forward, Chain.Deliver;
      if conn.slaveNumber < replicas - 1 {
        if conn.omsgQ != [] && conn.omsgQ[0].cmd.Get? {
          return false;
        }
        ok := PassDown(g, i, conn, master);
      } else {
        ok := DeliverFrom(g, i, conn, r);
      }
    }

    /** The branch for the read at the tail. */
    method AnswerRead(ghost g: nat, ghost i: nat, conn: Server, r: Reply) returns (ok: bool)
      requires Valid() && Here(g, i, conn)
      modifies Repr
      ensures Valid() && Same() && kafka == old(kafka)
      ensures |old(model)| == |msMap| && i < |old(model)[g].links|
      ensures match Chain.Deliver(old(model)[g], i, r)
        case Ok(h) =>
          && ok && i < |h.links|
          && model == old(model)[g := h.(links := h.links[i := h.links[i].(tail := false)])]
        case Abort => !ok
    {
      Seen(g, i, conn);
      hide Viewed, Placed, Valid, Shape, OwnedLink;
      ok := DeliverFrom(g, i, conn, r);
      if ok {
        ClearTail(g, i, conn);
      }
    }

    /** The branch in which nobody is waiting for the response. */
    method Drop(ghost g: nat, ghost i: nat, conn: Server)
      requires Valid() && Here(g, i, conn)
      modifies Repr
      ensures Valid() && Same() && kafka == old(kafka)
      ensures |old(model)| == |msMap| && i < |old(model)[g].links|
      ensures var l := old(model)[g].links[i];
        model == Refreshed(old(model), g, i, l.(omsg := if l.omsg == [] then [] else l.omsg[1..]))
    {
      Seen(g, i, conn);
      if conn.omsgQ != [] {
        var dropped := PopSent(g, i, conn);
      } else {
        assert model[g].links[i := model[g].links[i].(omsg := [])] == model[g].links;
      }
    }

    /** replica_rsp_recv once the response is there: who gets it depends on the master's flag. */
    method Dispatch(ghost g: nat, ghost i: nat, conn: Server, master: Server, r: Reply) returns (ok: bool)
      requires Valid() && Here(g, i, conn) && 1 <= i && Here(g, 0, master)
      modifies Repr
      ensures Valid() && Same() && kafka == old(kafka)
      ensures |old(model)| == |msMap| && 1 <= i < |old(model)[g].links|
      ensures match Chain.SlaveRecv(old(model)[g], i, r)
        case Ok(h) => ok && model == old(model)[g := h]
        case Abort => !ok
    {
      assert g < |model| == |msMap| && i < |model[g].links| == replicas + 1
        && conn.tail == model[g].links[i].tail && master.fwdToReplicas == model[g].links[0].fwd by {
        Seen(g, i, conn);
        Seen(g, 0, master);
      }
      hide Viewed, Placed, Valid, Shape, OwnedLink, ViewOf, ViewOfClient, Chain.Forward, Chain.Deliver;
      if master.fwdToReplicas {
        ok := PassOn(g, i, conn, master, r);
      } else if conn.tail {
        ok := AnswerRead(g, i, conn, r);
      } else {
        Drop(g, i, conn);
        ok := true;
      }
    }

    /** replica_rsp_recv: a response, or a failed read, on the link of a slave. */
    method ReplicaRspRecv(ghost g: nat, ghost i: nat, conn: Server, msg: Option<Reply>) returns (ok: bool)
      requires Valid() && Here(g, i, conn) && 1 <= i
      modifies Repr
      ensures Valid() && Same() && kafka == old(kafka)
      ensures |old(model)| == |msMap| && 1 <= i < |old(model)[g].links|
      ensures match Chain.Recv(old(model)[g], i, msg)
        case Ok(h) => ok && model == old(model)[g := h]
        case Abort => !ok
    {
      Seen(g, i, conn);
      match msg
      case None =>
        MarkError(g, i, conn);
        ok := true;
      case Some(r) =>
        var found := GetMasterOfSlave(conn);
        Listed(g, i);
        ghost var k :| 0 <= k < |msMap| && conn in msMap[k].1 && found == Hit(msMap[k].0);
        OwnMaster(g, i, k);
        ok := Dispatch(g, i, conn, found.link, r);
    }

    method Mark(l: Server, fwd: bool, tail: bool)
      requires l as object != fdes
      modifies l`fwdToReplicas, l`tail
      ensures l.fwdToReplicas == fwd && ViewOf(l) == old(ViewOf(l)).(fwd := fwd, tail := tail)
    {
      l.fwdToReplicas := fwd;
      l.tail := tail;
    }

    method SetFlags(ghost g: nat, ghost i: nat, l: Server, fwd: bool, tail: bool)
      requires Valid() && Here(g, i, l)
      modifies l`fwdToReplicas, l`tail, this`model
      ensures Valid() && Same() && l.fwdToReplicas == fwd
      ensures model == Refreshed(old(model), g, i, old(model)[g].links[i].(fwd := fwd, tail := tail))
    {
      Seen(g, i, l);
      OwnedFlags(ViewOf(l), g, fwd, tail);
      hide Viewed, Placed, Shape, OwnedLink, ViewOf;
      Mark(l, fwd, tail);
      model := Refreshed(model, g, i, ViewOf(l));
      LinkChanged((g, i));
    }

    /** get_mapped_server_conn: a write goes to the master, a read to the last slave. */
    method GetMappedServerConn(ghost g: nat, conn: Client, cmd: Cmd) returns (out: Server)
      requires Valid() && g < |clients| && conn == clients[g]
      modifies Repr
      ensures Valid() && Same() && kafka == old(kafka)
      ensures |old(model)| == |msMap| && |old(model)[g].links| == replicas + 1 >= 2
      ensures Here(g, if cmd.Set? then 0 else replicas, out) && out.fwdToReplicas == cmd.Set?
      ensures model == old(model)[g := Flagged(old(model)[g], cmd)]
    {
      SeenClient(g, conn);
      var mapped := conn.dataletConn;
      assert Here(g, 0, mapped);
      Seen(g, 0, mapped);
      hide Viewed, Placed, Valid, OwnedLink, Shape, Flagged, Refreshed, ViewOf, ViewOfClient;
      if cmd.Set? {
        out := mapped;
        WriteFlags(g, mapped, cmd);
      } else {
        out := NextSlave(g, mapped, replicas - 1);
        ReadFlags(g, mapped, out);
        FlagsOfRead(old(model)[g], cmd);
      }
    }

    method WriteFlags(ghost g: nat, mapped: Server, ghost cmd: Cmd)
      requires Valid() && Here(g, 0, mapped) && cmd.Set?
      modifies mapped`fwdToReplicas, mapped`tail, this`model
      ensures Valid() && Same() && mapped.fwdToReplicas && g < |old(model)| && |old(model)[g].links| >= 2
      ensures model == old(model)[g := Flagged(old(model)[g], cmd)]
    {
      Seen(g, 0, mapped);
      hide Viewed, Placed, Valid, OwnedLink, Shape;
      SetFlags(g, 0, mapped, true, false);
    }

    method ReadFlags(ghost g: nat, mapped: Server, tail: Server)
      requires Valid() && Here(g, 0, mapped) && Here(g, replicas, tail)
      modifies mapped`fwdToReplicas, mapped`tail, tail`fwdToReplicas, tail`tail, this`model
      ensures Valid() && Same() && !tail.fwdToReplicas && g < |old(model)| && |old(model)[g].links| >= 2
      ensures model == old(model)[g := Flagged(old(model)[g], Get(""))]
    {
      hide Viewed, Placed, Valid, OwnedLink, Shape, Flagged, Refreshed;
      assert g < |model| && |model[g].links| == replicas + 1 >= 2 && mapped.tail == model[g].links[0].tail by {
        Seen(g, 0, mapped);
      }
      hide ViewOf;
      FlagBoth(model, g, mapped.tail);
      SetFlags(g, 0, mapped, false, mapped.tail);
      SetFlags(g, replicas, tail, false, true);
    }

    /** One round of req_recv's loop: route, log the write, then queue the request. */
    method AdmitOne(ghost g: nat, conn: Client, op: Op)
      requires Valid() && g < |clients| && conn == clients[g] && op.client == g
      modifies Repr
      ensures Valid() && Same()
      ensures |old(model)| == |msMap| && |old(model)[g].links| >= 2
      ensures model == old(model)[g := Chain.Admit(old(model)[g], op)]
      ensures kafka == old(kafka) + if op.cmd.Set? then [op] else []
    {
      hide Viewed, Placed, Valid, OwnedLink, Flagged, Chain.Admit, Chain.Push;
      var outConn := GetMappedServerConn(g, conn, op.cmd);
      FlagThenPush(old(model), g, op);
      Seen(g, if op.cmd.Set? then 0 else replicas, outConn);
      Journal(op, outConn.fwdToReplicas);
      PushBack(g, if op.cmd.Set? then 0 else replicas, outConn, op);
    }

    method Journal(op: Op, fwd: bool)
      requires Valid()
      modifies this`kafka
      ensures Valid() && Same() && model == old(model)
      ensures kafka == old(kafka) + if fwd then [op] else []
    {
      if fwd {
        kafka := kafka + [op];
      }
    }

    /** req_recv: all the requests one read has delivered, in order. */
    method ReqRecv(ghost g: nat, conn: Client, ops: seq<Op>)
      requires Valid() && g < |clients| && conn == clients[g]
      requires forall j :: 0 <= j < |ops| ==> ops[j].client == g
      modifies Repr
      ensures Valid() && Same()
      ensures |old(model)| == |msMap| && |old(model)[g].links| >= 2
      ensures model == old(model)[g := AdmitAll(old(model)[g], ops)]
      ensures kafka == old(kafka) + Produced(ops)
    {
      assert g < |model| == |msMap| && |model[g].links| >= 2 by {
        SeenClient(g, conn);
        Seen(g, 0, msMap[g].0);
      }
      hide Viewed, Placed, Valid, Shape, OwnedLink, ViewOf, ViewOfClient, Chain.Admit, AdmitAll, Produced;
      var j := 0;
      AdmitNone(model, kafka, g);
      assert ops[..0] == [];
      while j < |ops|
        invariant 0 <= j <= |ops|
        invariant Valid() && Same() && Admitted(old(model), old(kafka), g, ops[..j], model, kafka)
      {
        hide Admitted;
        AdmitStep(old(model), old(kafka), g, ops, j, model, kafka);
        AdmitOne(g, conn, ops[j]);
        j := j + 1;
      }
      assert ops[..j] == ops;
    }

    /**
     * req_recv from the bytes of one read: the frames in it are admitted, in order. Those of type
     * protoSpec.PutMessage are appended to the log and to the master's queue as writes of their key and
     * value, those of type protoSpec.GetMessage to the last slave's queue as reads of their key.
     */
    method ReqRead(g: nat, conn: Client, msg: Bytes, first: nat, fields: string -> (Key, Val),
                   ghost ms: seq<Frame.Message>)
      requires Valid() && g < |clients| && conn == clients[g]
      requires msg !in Repr && msg.Valid() && msg.Content() == Frame.EncodeAll(ms)
      requires forall i :: 0 <= i < |ms| ==> ReadsOrWrites(ms[i])
      modifies Repr, msg
      ensures Valid() && Same()
      ensures |old(model)| == |msMap| && |old(model)[g].links| >= 2
      ensures model == old(model)[g := AdmitAll(old(model)[g], OpsOf(ms, g, first, fields))]
      ensures kafka == old(kafka) + Produced(OpsOf(ms, g, first, fields))
      ensures |msMap[g].1| == replicas >= 1
      ensures kafka == old(kafka) + Puts(ms, g, first, fields)
      ensures msMap[g].0.imsgQ == old(msMap[g].0.imsgQ) + Puts(ms, g, first, fields)
      ensures var last := msMap[g].1[replicas - 1];
        last.imsgQ == old(last.imsgQ) + Gets(ms, g, first, fields)
    {
      hide Valid, AdmitAll, Produced, Frame.EncodeAll, Frame.Sendable, OpsOf, Puts, Gets;
      QueuesSeen(g);
      ghost var was := model[g];
      var ops := ReadOps(msg, g, first, fields, ms);
      ReqRecv(g, conn, ops);
      FramesQueued(was, ms, g, first, fields);
      QueuesSeen(g);
    }

    lemma QueuesSeen(g: nat)
      requires Valid() && g < |clients|
      ensures |msMap| == |clients| == |model| && |msMap[g].1| == replicas >= 1 && |model[g].links| == replicas + 1
      ensures msMap[g].0.imsgQ == model[g].links[0].imsg
      ensures msMap[g].1[replicas - 1].imsgQ == model[g].links[replicas].imsg
    {
      Seen(g, 0, msMap[g].0);
      Seen(g, replicas, msMap[g].1[replicas - 1]);
    }

    /** req_recv when the read fails: the client's link is given up. */
    method ReqRecvFails(ghost g: nat, conn: Client)
      requires Valid() && g < |clients| && conn == clients[g]
      modifies conn`error, fdes, this`model
      ensures Valid() && Same()
      ensures model == RefreshedClient(old(model), g, Chain.FailClient(old(model)[g].client))
    {
      conn.error := true;
      var ret := fdes.Del(conn.fd);
      model := RefreshedClient(model, g, ViewOfClient(conn));
      ClientChanged(g);
    }
  }
}
