/** Frames on the wire: how clients write them, how the proxy cuts them out, and how it sends them on. */
module Frame {
  import opened Arithmetic
  import opened Wrappers
  import opened Buffer

  const MAGIC: nat := 0x06121983
  const MAX_FRAME: nat := 1073741826

  // ---------------------------------------------------------------- numbers, the lowest byte first

  function Pow256(w: nat): (r: nat)
    ensures r > 0
  {
    if w == 0 then 1 else 256 * Pow256(w - 1)
  }

  function Le(n: nat, w: nat): (r: string)
    ensures |r| == w
  {
    if w == 0 then "" else [(n % 256) as char] + Le(n / 256, w - 1)
  }

  function Value(s: string): nat {
    if s == "" then 0 else s[0] as nat + 256 * Value(s[1..])
  }

  lemma {:induction false} ValueLe(n: nat, w: nat)
    requires n < Pow256(w)
    ensures Value(Le(n, w)) == n
  {
    if w > 0 {
      ValueLe(n / 256, w - 1);
      assert Le(n, w)[1..] == Le(n / 256, w - 1);
    }
  }

  lemma WordSizes()
    ensures Pow256(4) == 0x1_0000_0000 && Pow256(8) == 0x1_0000_0000_0000_0000
  {
    assert Pow256(2) == 0x1_0000;
    assert Pow256(4) == 0x1_0000_0000;
    assert Pow256(6) == 0x1_0000_0000_0000;
  }

  // ---------------------------------------------------------------- frames

  /** The type of a message and its serialized form. */
  datatype Message = Message(kind: string, data: string)

  function Total(m: Message): nat {
    4 + 8 + 8 + |m.kind| + 8 + |m.data|
  }

  /** A frame as a client writes it. */
  function Encode(m: Message): (r: string)
    ensures |r| == Total(m)
  {
    Le(MAGIC, 4) + (Le(Total(m), 8) + (Le(|m.kind|, 8) + (m.kind + (Le(|m.data|, 8) + m.data))))
  }

  function EncodeAll(ms: seq<Message>): string {
    if ms == [] then "" else Encode(ms[0]) + EncodeAll(ms[1..])
  }

  const GET: string := "protoSpec.GetMessage"
  const PUT: string := "protoSpec.PutMessage"
  const DEL: string := "protoSpec.DelMessage"

  /** What clients send: a known type, a message that is not empty, and not too much of it. */
  predicate Sendable(m: Message) {
    && m.kind in {"protoSpec.GetMessage", "protoSpec.PutMessage", "protoSpec.DelMessage"}
    && m.data != "" && 28 + |m.kind| + |m.data| < 1073741826
  }

  /** msg_parse at the start of `s`; nothing if a check fails or the frame is not all there. */
  function Parse(s: string): (r: Option<Message>)
    ensures r.Some? ==> Sendable(r.value) && Total(r.value) <= |s|
  {
    if |s| < 20 || Value(s[..4]) != MAGIC then None
    else
      var total, typeLen := Value(s[4..12]), Value(s[12..20]);
      var at := 20 + typeLen;
      if total >= MAX_FRAME || total <= 20 || |s| < at + 8 then None
      else
        var dataLen := Value(s[at..at + 8]);
        var kind := s[20..at];
        if at + 8 >= total || at + 8 + dataLen != total || |s| < total || kind !in {GET, PUT, DEL} then None
        else Some(Message(kind, s[at + 8..total]))
  }

  lemma Part(a: string, x: string, y: string, i: nat, j: nat)
    requires |a| == i && j == i + |x|
    ensures (a + (x + y))[i..j] == x && a + (x + y) == (a + x) + y
  {}

  /** A frame and what follows it, field by field. */
  lemma Fields(m: Message, t: string)
    ensures var s, k, n := Encode(m) + t, |m.kind|, |m.data|;
      && |s| >= Total(m)
      && s[..4] == Le(MAGIC, 4) && s[4..12] == Le(Total(m), 8) && s[12..20] == Le(k, 8)
      && s[20..20 + k] == m.kind && s[20 + k..28 + k] == Le(n, 8) && s[28 + k..Total(m)] == m.data
  {
    hide Le;
    var k, n := |m.kind|, |m.data|;
    var a, b, c, e := Le(MAGIC, 4), Le(Total(m), 8), Le(k, 8), Le(n, 8);
    Part("", a, b + (c + (m.kind + (e + m.data))), 0, 4);
    Part(a, b, c + (m.kind + (e + m.data)), 4, 12);
    Part(a + b, c, m.kind + (e + m.data), 12, 20);
    Part(a + b + c, m.kind, e + m.data, 20, 20 + k);
    Part(a + b + c + m.kind, e, m.data, 20 + k, 28 + k);
    Part(a + b + c + m.kind + e, m.data, "", 28 + k, Total(m));
    Front(Encode(m), t, 0, 4);
    Front(Encode(m), t, 4, 12);
    Front(Encode(m), t, 12, 20);
    Front(Encode(m), t, 20, 20 + k);
    Front(Encode(m), t, 20 + k, 28 + k);
    Front(Encode(m), t, 28 + k, Total(m));
  }

  lemma Front(x: string, t: string, i: nat, j: nat)
    requires i <= j <= |x|
    ensures (x + t)[i..j] == x[i..j]
  {}

  lemma Numbers(m: Message)
    requires Sendable(m)
    ensures Value(Le(MAGIC, 4)) == MAGIC && Value(Le(Total(m), 8)) == Total(m)
    ensures Value(Le(|m.kind|, 8)) == |m.kind| && Value(Le(|m.data|, 8)) == |m.data|
  {
    hide Value, Le, Pow256;
    WordSizes();
    ValueLe(MAGIC, 4);
    ValueLe(Total(m), 8);
    ValueLe(|m.kind|, 8);
    ValueLe(|m.data|, 8);
  }

  /** A frame at the start is read back, whatever follows it. */
  lemma ParseEncoded(m: Message, t: string)
    requires Sendable(m)
    ensures Parse(Encode(m) + t) == Some(m)
  {
    hide Encode, Value, Le;
    Fields(m, t);
    Numbers(m);
  }

  // ---------------------------------------------------------------- byte by byte

  lemma DivDiv(n: nat, a: nat)
    requires a > 0
    ensures n / 256 / a == n / (256 * a)
  {
    var q, r := n / 256, n % 256;
    var q', r' := q / a, q % a;
    assert n == q' * (256 * a) + (256 * r' + r);
    Quotient(n, 256 * a, q', 256 * r' + r);
  }

  lemma {:induction false} LeAt(n: nat, w: nat, i: nat)
    requires i < w
    ensures Le(n, w)[i] as nat == n / Pow256(i) % 256
  {
    if i > 0 {
      LeAt(n / 256, w - 1, i - 1);
      DivDiv(n, Pow256(i - 1));
    }
  }

  /** Eight bytes of a frame are a number, the lowest byte first. */
  ghost predicate Counts(s: string, at: nat, n: nat)
    requires at + 8 <= |s|
  {
    forall i :: 0 <= i < 8 ==> s[at + i] as nat == n / Pow256(i) % 256
  }

  lemma CountsLe(s: string, at: nat, n: nat)
    requires at + 8 <= |s| && s[at..at + 8] == Le(n, 8)
    ensures Counts(s, at, n)
  {
    hide Le;
    forall i | 0 <= i < 8
      ensures s[at + i] as nat == n / Pow256(i) % 256
    {
      LeAt(n, 8, i);
      assert s[at + i] == s[at..at + 8][i];
    }
  }

  lemma Magic()
    ensures Le(MAGIC, 4) == "\U{83}\U{19}\U{12}\U{06}"
  {
    assert Le(0x0612, 2) == "\U{12}\U{06}";
    assert Le(0x061219, 3) == "\U{19}" + Le(0x0612, 2);
  }

  lemma FieldsAlone(m: Message)
    ensures var s, k, n := Encode(m), |m.kind|, |m.data|;
      && |s| == 28 + k + n && s[..4] == Le(MAGIC, 4) && s[4..12] == Le(28 + k + n, 8) && s[12..20] == Le(k, 8)
      && s[20..20 + k] == m.kind && s[20 + k..28 + k] == Le(n, 8) && s[28 + k..] == m.data
  {
    hide Encode, Le;
    Fields(m, "");
    assert Encode(m) + "" == Encode(m);
    assert Encode(m)[28 + |m.kind|..] == Encode(m)[28 + |m.kind|..Total(m)];
  }

  /** A frame byte by byte: the magic number, the length of all of it, and the type and the message with theirs. */
  lemma Layout(m: Message)
    ensures var s, k, n := Encode(m), |m.kind|, |m.data|;
      && |s| == 28 + k + n && s[..4] == "\U{83}\U{19}\U{12}\U{06}" && Counts(s, 4, 28 + k + n)
      && Counts(s, 12, k) && s[20..20 + k] == m.kind
      && Counts(s, 20 + k, n) && s[28 + k..] == m.data
  {
    hide Encode, Le, Counts;
    var s, k, n := Encode(m), |m.kind|, |m.data|;
    FieldsAlone(m);
    Magic();
    CountsLe(s, 4, 28 + k + n);
    CountsLe(s, 12, k);
    CountsLe(s, 20 + k, n);
  }

  // ---------------------------------------------------------------- exactly which frames are accepted

  ghost predicate Octets(s: string) {
    forall i :: 0 <= i < |s| ==> s[i] as nat < 256
  }

  lemma {:induction false} LeValue(s: string)
    requires Octets(s)
    ensures Le(Value(s), |s|) == s
  {
    if s != "" {
      LeValue(s[1..]);
      assert Value(s) % 256 == s[0] as nat && Value(s) / 256 == Value(s[1..]);
      assert s == [s[0]] + s[1..];
    }
  }

  lemma FieldValue(s: string, i: nat, j: nat, n: nat)
    requires Octets(s) && i <= j <= |s| && Value(s[i..j]) == n
    ensures s[i..j] == Le(n, j - i)
  {
    LeValue(s[i..j]);
  }

  lemma Pieces(s: string, k: nat, n: nat)
    requires |s| >= 28 + k + n
    ensures s[..28 + k + n] ==
      s[..4] + (s[4..12] + (s[12..20] + (s[20..20 + k] + (s[20 + k..28 + k] + s[28 + k..28 + k + n]))))
  {}

  /** On bytes, exactly the encodings of messages that may be sent are accepted. */
  lemma ParseIff(s: string, m: Message)
    requires Octets(s)
    ensures Parse(s) == Some(m) <==> Sendable(m) && Encode(m) <= s
  {
    hide Le, Value, Octets;
    if Parse(s) == Some(m) {
      ParsedFields(s, m);
      var k, n := |m.kind|, |m.data|;
      Pieces(s, k, n);
    }
    if Sendable(m) && Encode(m) <= s {
      var t := s[Total(m)..];
      assert s == Encode(m) + t;
      hide Encode, Parse;
      ParseEncoded(m, t);
    }
  }

  lemma ParsedFields(s: string, m: Message)
    requires Octets(s) && Parse(s) == Some(m)
    ensures var k, n := |m.kind|, |m.data|;
      && |s| >= 28 + k + n && s[..4] == Le(MAGIC, 4) && s[4..12] == Le(28 + k + n, 8) && s[12..20] == Le(k, 8)
      && s[20..20 + k] == m.kind && s[20 + k..28 + k] == Le(n, 8) && s[28 + k..28 + k + n] == m.data
  {
    hide Le, Value, Octets;
    var k, n := |m.kind|, |m.data|;
    assert s[0..4] == s[..4];
    FieldValue(s, 0, 4, MAGIC);
    FieldValue(s, 4, 12, 28 + k + n);
    FieldValue(s, 12, 20, k);
    FieldValue(s, 20 + k, 28 + k, n);
  }

  // ---------------------------------------------------------------- cutting out frames

  /** The frames of a read, byte for byte; nothing if one of them is not well-formed. */
  function Cut(s: string): Option<seq<string>>
    decreases |s|
  {
    if s == "" then Some([])
    else match Parse(s)
    case None => None
    case Some(m) =>
      match Cut(s[Total(m)..])
      case None => None
      case Some(rest) => Some([s[..Total(m)]] + rest)
  }

  function Encodings(ms: seq<Message>): (r: seq<string>)
    ensures |r| == |ms|
  {
    if ms == [] then [] else [Encode(ms[0])] + Encodings(ms[1..])
  }

  /** Frames sent one after the other are cut out exactly as they were sent. */
  lemma {:induction false} CutFrames(ms: seq<Message>)
    requires forall i :: 0 <= i < |ms| ==> Sendable(ms[i])
    ensures Cut(EncodeAll(ms)) == Some(Encodings(ms))
  {
    if ms != [] {
      var m, t := ms[0], EncodeAll(ms[1..]);
      ParseEncoded(m, t);
      CutFrames(ms[1..]);
      hide Parse, Encode;
      var s := Encode(m) + t;
      assert s[..Total(m)] == Encode(m) && s[Total(m)..] == t;
    }
  }

  /** On bytes, a read is cut up if and only if it is nothing but frames, one after the other. */
  lemma {:induction false} CutIff(s: string)
    requires Octets(s)
    ensures Cut(s).Some? <==> exists ms :: (forall i :: 0 <= i < |ms| ==> Sendable(ms[i])) && s == EncodeAll(ms)
    decreases |s|
  {
    if Cut(s).Some? {
      var ms := FramesOf(s);
    }
    if ms :| (forall i :: 0 <= i < |ms| ==> Sendable(ms[i])) && s == EncodeAll(ms) {
      CutFrames(ms);
    }
  }

  lemma {:induction false} FramesOf(s: string) returns (ms: seq<Message>)
    requires Octets(s) && Cut(s).Some?
    ensures (forall i :: 0 <= i < |ms| ==> Sendable(ms[i])) && s == EncodeAll(ms)
    decreases |s|
  {
    hide Parse, Encode, Sendable;
    ms := [];
    if s != "" {
      var m := Parse(s).value;
      ParseIff(s, m);
      var t := s[Total(m)..];
      assert s == Encode(m) + t;
      var rest := FramesOf(t);
      ms := [m] + rest;
      assert ms[1..] == rest;
    }
  }

  /** The loop of req_recv over one read: each request gets a buffer of its own. */
  method Segment(msg: Bytes) returns (reqs: Option<seq<Bytes>>)
    requires msg.Valid()
    modifies msg`data, msg`size
    ensures msg.Valid()
    ensures reqs.Some? <==> Cut(old(msg.Content())).Some?
    ensures reqs.Some? ==>
      && msg.size == 0 && |reqs.value| == |Cut(old(msg.Content())).value|
      && forall i :: 0 <= i < |reqs.value| ==>
           && fresh(reqs.value[i]) && fresh(reqs.value[i].buf)
           && Alone(reqs.value[i], Cut(old(msg.Content())).value[i])
  {
    var done: seq<Bytes> := [];
    ghost var s, cut: seq<string> := msg.Content(), [];
    JoinedAll(Cut(s));
    hide Parse, Cut, Joined;
    while msg.size != 0
      invariant msg.Valid() && Joined(Cut(s), cut, Cut(msg.Content()))
      invariant |cut| == |done|
      invariant forall i :: 0 <= i < |done| ==> Alone(done[i], cut[i]) && fresh(done[i]) && fresh(done[i].buf)
      decreases msg.size
    {
      ghost var curr := msg.Content();
      JoinedStep(Cut(s), cut, curr);
      var req := CutOne(msg);
      if req.None? {
        return None;
      }
      cut := cut + [curr[..Total(Parse(curr).value)]];
      done := done + [req.value];
    }
    JoinedEnd(Cut(s), cut, msg.Content());
    reqs := Some(done);
  }

  /** A buffer with its contents at the front. */
  ghost predicate Alone(b: Bytes, s: string)
    reads b, b.buf
  {
    b.Valid() && b.data == 0 && b.Content() == s
  }

  /** One round: the frame at the start of what is left, in a buffer of its own. */
  method CutOne(msg: Bytes) returns (req: Option<Bytes>)
    requires msg.Valid() && msg.size != 0
    modifies msg`data, msg`size
    ensures msg.Valid()
    ensures match Parse(old(msg.Content()))
      case None => req.None?
      case Some(m) =>
        && req.Some? && fresh(req.value) && fresh(req.value.buf)
        && Alone(req.value, old(msg.Content())[..Total(m)]) && msg.Content() == old(msg.Content())[Total(m)..]
        && msg.size < old(msg.size)
  {
    hide Parse;
    var curr := msg.Content();
    var m := Parse(curr);
    if m.None? {
      return None;
    }
    var copy := CopyOf(curr[..Total(m.value)]);
    msg.Decr(Total(m.value));
    req := Some(copy);
  }

  method CopyOf(s: string) returns (req: Bytes)
    ensures fresh(req) && fresh(req.buf) && Alone(req, s)
  {
    req := new Bytes(|s|);
    req.Put(s);
    assert "" + s == s;
  }

  /** What has been cut, and what is still to be, are everything. */
  ghost predicate Joined(all: Option<seq<string>>, done: seq<string>, rest: Option<seq<string>>) {
    if rest.None? then all.None? else all == Some(done + rest.value)
  }

  lemma JoinedAll(all: Option<seq<string>>)
    ensures Joined(all, [], all)
  {
    if all.Some? {
      assert [] + all.value == all.value;
    }
  }

  lemma JoinedStep(all: Option<seq<string>>, done: seq<string>, s: string)
    requires Joined(all, done, Cut(s)) && s != ""
    ensures Parse(s).None? ==> all.None?
    ensures Parse(s).Some? ==>
      var n := Total(Parse(s).value); Joined(all, done + [s[..n]], Cut(s[n..]))
  {
    hide Parse;
    if Parse(s).Some? {
      var n := Total(Parse(s).value);
      var rest := Cut(s[n..]);
      if rest.Some? {
        assert done + ([s[..n]] + rest.value) == done + [s[..n]] + rest.value;
      }
    }
  }

  lemma JoinedEnd(all: Option<seq<string>>, done: seq<string>, s: string)
    requires Joined(all, done, Cut(s)) && s == ""
    ensures all == Some(done)
  {
    assert done + [] == done;
  }

  // ---------------------------------------------------------------- sending a request on

  /** What a write to the socket does. */
  datatype Write = Took(n: nat) | Interrupted | WouldBlock | Failed

  /**
   * msg_send: writes until everything is gone or the socket takes no more, and then sets the buffer
   * back to its front. A failed write leaves it where it is.
   */
  method MsgSend(smsg: Bytes, writes: seq<Write>, noblock: bool) returns (ret: int, ghost sent: string)
    requires smsg.Valid() && smsg.size > 0
    modifies smsg`data, smsg`size
    ensures smsg.Valid() && sent <= old(smsg.Content())
    ensures ret == -1 || ret == |sent|
    ensures ret != -1 ==> smsg.data == 0 && smsg.size == old(smsg.size)
    ensures ret == |old(smsg.Content())| ==> sent == old(smsg.Content())
  {
    var size := smsg.size;
    ghost var all := smsg.Content();
    ret, sent := 0, "";
    var i, going := 0, true;
    DrainedNone(all);
    hide Drained;
    while going && smsg.size > 0 && i < |writes|
      invariant smsg.Valid() && 0 <= ret && Drained(all, ret, sent, smsg.Content())
      decreases |writes| - i
    {
      if writes[i].Failed? {
        DrainedSizes(all, ret, sent, smsg.Content());
        return -1, sent;
      }
      DrainedMore(all, ret, sent, smsg.Content());
      ghost var left := smsg.Content();
      var len;
      len, going := WriteOnce(smsg, writes[i], noblock);
      sent := sent + left[..len];
      ret := ret + len;
      i := i + 1;
    }
    DrainedSizes(all, ret, sent, smsg.Content());
    smsg.Rewind(size);
  }

  /** One turn of the loop: how much went, and whether to try again. */
  method WriteOnce(smsg: Bytes, w: Write, noblock: bool) returns (len: nat, going: bool)
    requires smsg.Valid() && !w.Failed?
    modifies smsg`data, smsg`size
    ensures smsg.Valid() && len <= |old(smsg.Content())| && smsg.Content() == old(smsg.Content())[len..]
    ensures going <==> w.Interrupted? || (len > 0 && noblock)
  {
    len := if w.Took? then (if w.n < smsg.size then w.n else smsg.size) else 0;
    smsg.Decr(len);
    going := w.Interrupted? || (len > 0 && noblock);
  }

  /** `n` bytes are gone and the rest is left. */
  ghost predicate Drained(all: string, n: nat, gone: string, left: string) {
    n <= |all| && gone == all[..n] && left == all[n..]
  }

  lemma DrainedNone(all: string)
    ensures Drained(all, 0, "", all)
  {}

  lemma DrainedMore(all: string, n: nat, gone: string, left: string)
    requires Drained(all, n, gone, left)
    ensures forall k :: 0 <= k <= |left| ==> Drained(all, n + k, gone + left[..k], left[k..])
  {}

  lemma DrainedSizes(all: string, n: nat, gone: string, left: string)
    requires Drained(all, n, gone, left)
    ensures |gone| == n && gone <= all && (n == |all| ==> gone == all)
  {}

  /**
   * A request goes down the chain in one buffer. If every hop writes all of it, every hop writes the
   * same bytes, and the buffer is as it was.
   */
  method SendDown(req: Bytes, hops: seq<seq<Write>>) returns (complete: bool, ghost sent: seq<string>)
    requires req.Valid() && req.data == 0 && req.size > 0
    modifies req`data, req`size
    ensures complete ==>
      && Alone(req, old(req.Content())) && |sent| == |hops|
      && forall i :: 0 <= i < |hops| ==> sent[i] == old(req.Content())
  {
    sent := [];
    for i := 0 to |hops|
      invariant Alone(req, old(req.Content())) && |sent| == i
      invariant forall j :: 0 <= j < i ==> sent[j] == old(req.Content())
    {
      var ret;
      ghost var bytes;
      var size := req.size;
      ret, bytes := MsgSend(req, hops[i], true);
      if ret != size {
        return false, sent;
      }
      sent := sent + [bytes];
    }
    complete := true;
  }

  /** From the client's frames to the wires: hop by hop, request by request, the frames as they were sent. */
  method Relay(msg: Bytes, hops: seq<seq<seq<Write>>>, ghost ms: seq<Message>)
    returns (complete: bool, ghost sent: seq<seq<string>>)
    requires msg.Valid() && msg.Content() == EncodeAll(ms) && |hops| == |ms|
    requires forall i :: 0 <= i < |ms| ==> Sendable(ms[i])
    modifies msg`data, msg`size
    ensures complete ==> |sent| == |ms| && AllSent(sent, hops, ms)
  {
    sent := [];
    assert ms[0..] == ms;
    for i := 0 to |hops|
      invariant msg.Valid() && msg.Content() == EncodeAll(ms[i..]) && |sent| == i && AllSent(sent, hops, ms)
    {
      hide Encode, EncodeAll, Sendable, AllSent;
      ghost var bytes;
      bytes, complete := RelayOne(msg, hops[i], ms, i);
      if !complete {
        return;
      }
      AllSentPush(sent, hops, ms, bytes);
      sent := sent + [bytes];
    }
    complete := true;
  }

  /** Every entry is `s`. */
  ghost predicate All(sent: seq<string>, s: string) {
    forall h :: 0 <= h < |sent| ==> sent[h] == s
  }

  /** Every hop of every request so far has written that request's frame. */
  ghost predicate AllSent(sent: seq<seq<string>>, hops: seq<seq<seq<Write>>>, ms: seq<Message>) {
    && |sent| <= |hops| == |ms|
    && forall i :: 0 <= i < |sent| ==> |sent[i]| == |hops[i]| && All(sent[i], Encode(ms[i]))
  }

  lemma AllSentPush(sent: seq<seq<string>>, hops: seq<seq<seq<Write>>>, ms: seq<Message>, bytes: seq<string>)
    requires AllSent(sent, hops, ms) && |sent| < |ms|
    requires |bytes| == |hops[|sent|]| && All(bytes, Encode(ms[|sent|]))
    ensures AllSent(sent + [bytes], hops, ms)
  {
    hide Encode, All;
  }

  /** The next frame is cut out and goes down the chain. */
  method RelayOne(msg: Bytes, hops: seq<seq<Write>>, ghost ms: seq<Message>, ghost i: nat)
    returns (ghost sent: seq<string>, complete: bool)
    requires msg.Valid() && i < |ms| && msg.Content() == EncodeAll(ms[i..]) && Sendable(ms[i])
    modifies msg`data, msg`size
    ensures msg.Valid() && msg.Content() == EncodeAll(ms[i + 1..])
    ensures complete ==> |sent| == |hops| && All(sent, Encode(ms[i]))
  {
    ghost var m, rest := ms[i], EncodeAll(ms[i + 1..]);
    assert ms[i..][1..] == ms[i + 1..] && msg.Content() == Encode(m) + rest;
    ParseEncoded(m, rest);
    assert (Encode(m) + rest)[..Total(m)] == Encode(m) && (Encode(m) + rest)[Total(m)..] == rest;
    hide Encode, EncodeAll, Parse;
    var req := CutOne(msg);
    complete, sent := SendDown(req.value, hops);
  }
}
