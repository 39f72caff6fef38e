/** The length-prefixed record protocol: a packet is a list of records and an empty line. */
module Records {
  import opened Arithmetic
  import opened Stream
  import opened Buffer
  import opened Wrappers

  const MAX_PACKET_SIZE: nat := 128 * 1024 * 1024

  datatype Received = Packet(records: seq<string>, rest: string) | NotReady | Malformed | Redis

  // ---------------------------------------------------------------- sending

  function Encoded(records: seq<string>): string {
    if records == [] then "\n" else Record(records[0]) + Encoded(records[1..])
  }

  // ---------------------------------------------------------------- receiving

  /** Empty lines before a packet. */
  function Leading(s: string): (r: nat)
    ensures r <= |s|
  {
    if s != "" && (s[0] == '\n' || s[0] == '\r') then 1 + Leading(s[1..]) else 0
  }

  /** atoi of a text that begins with a digit, as a 32-bit integer. */
  function BodyLength(head: string): int
    requires head != "" && Digit(head[0])
  {
    var d := First(head, ForNonDigit);
    FirstStops(head, ForNonDigit);
    var v := Number(head[..d]) % 0x1_0000_0000;
    if v < 0x8000_0000 then v else v - 0x1_0000_0000
  }

  /** Past the line end after a record, if it is there. */
  function LineEnd(s: string, at: nat): Option<nat>
    requires at <= |s|
  {
    if at < |s| && s[at] == '\n' then Some(at + 1)
    else if at + 1 < |s| && s[at] == '\r' && s[at + 1] == '\n' then Some(at + 2)
    else None
  }

  /** One record at `at`: its bytes and where the next one begins. */
  datatype Step = Next(body: string, at: nat) | Done(at: nat) | Wait | Wrong

  function ReadOne(s: string, at: nat): (r: Step)
    requires at < |s|
    ensures r.Next? ==> at < r.at <= |s|
    ensures r.Done? ==> at < r.at <= |s|
  {
    var rest := s[at..];
    var k := First(rest, ForChar('\n'));
    if k == |rest| then Wait
    else if k == 0 || (k == 1 && rest[0] == '\r') then Done(at + k + 1)
    else if !Digit(rest[0]) || k + 1 > 19 then Wrong
    else
      var len := BodyLength(rest[..k]);
      if len < 0 then Wrong
      else if |rest| < k + 1 + len then Wait
      else
        match LineEnd(s, at + k + 1 + len)
        case None => Wait
        case Some(next) =>
          if next > MAX_PACKET_SIZE then Wrong else Next(rest[k + 1..k + 1 + len], next)
  }

  function ReadAll(s: string, at: nat, done: seq<string>): Received
    requires at <= |s|
    decreases |s| - at
  {
    if at == |s| then NotReady
    else match ReadOne(s, at)
    case Next(body, next) => ReadAll(s, next, done + [body])
    case Done(end) => Packet(done, s[end..])
    case Wait => NotReady
    case Wrong => Malformed
  }

  function Receive(s: string): Received {
    var at := Leading(s);
    if at < |s| && s[at] == '*' then Redis else ReadAll(s, at, [])
  }

  // ---------------------------------------------------------------- a packet as anyone may write it

  /** Whether there is a carriage return before the line feed after the length, and after the record. */
  datatype Ends = Ends(head: bool, body: bool)

  function Eol(cr: bool): string {
    if cr then "\r\n" else "\n"
  }

  function Typed(x: string, e: Ends): string {
    Decimal(|x|) + Eol(e.head) + (x + Eol(e.body))
  }

  function TypedAll(records: seq<string>, ends: seq<Ends>): string
    requires |ends| == |records|
  {
    if records == [] then "" else Typed(records[0], ends[0]) + TypedAll(records[1..], ends[1..])
  }

  ghost predicate Sendable(records: seq<string>) {
    forall i :: 0 <= i < |records| ==> |records[i]| < 0x8000_0000
  }

  /** The line with the length: its digits, and perhaps a carriage return. */
  function Head(n: nat, cr: bool): string {
    Decimal(n) + if cr then "\r" else ""
  }

  lemma TypedSplit(x: string, e: Ends, t: string)
    ensures Typed(x, e) + t == Head(|x|, e.head) + "\n" + (x + (Eol(e.body) + t))
  {
    hide Decimal;
  }

  lemma HeadEnds(n: nat, cr: bool, t: string)
    ensures First(Head(n, cr) + "\n" + t, ForChar('\n')) == |Head(n, cr)|
  {
    hide Decimal;
    FirstAt(Head(n, cr), '\n', t, ForChar('\n'));
  }

  lemma HeadLength(n: nat, cr: bool)
    requires n < 0x8000_0000
    ensures Head(n, cr) != "" && Digit(Head(n, cr)[0]) && |Head(n, cr)| <= 11
  {
    PowersOfTen();
    DecimalLength(n, 10);
    hide Decimal, Pow10;
  }

  lemma HeadRead(n: nat, cr: bool)
    requires n < 0x8000_0000
    ensures Head(n, cr) != "" && Digit(Head(n, cr)[0]) && BodyLength(Head(n, cr)) == n
  {
    hide Decimal, Number, First;
    var head := Head(n, cr);
    if cr {
      FirstAt(Decimal(n), '\r', "", ForNonDigit);
      assert head == Decimal(n) + ['\r'] + "";
    } else {
      FirstNone(Decimal(n), ForNonDigit);
      assert head == Decimal(n);
    }
    assert head[0] == Decimal(n)[0] && head[..|Decimal(n)|] == Decimal(n);
    NumberDecimal(n);
  }

  lemma EolFound(s: string, at: nat, cr: bool, t: string)
    requires at <= |s| && s[at..] == Eol(cr) + t
    ensures LineEnd(s, at) == Some(at + |Eol(cr)|)
  {
    assert s[at] == s[at..][0] && (cr ==> s[at + 1] == s[at..][1]);
  }

  /** A head of `k` characters that says `n`, `n` characters, and a line end that ends at `next`. */
  lemma ReadOneIs(s: string, at: nat, k: nat, n: nat, next: nat)
    requires at < |s| && 0 < k <= 11 && at + k + 1 + n <= |s|
    requires First(s[at..], ForChar('\n')) == k && Digit(s[at]) && BodyLength(s[at..][..k]) == n
    requires LineEnd(s, at + k + 1 + n) == Some(next)
    ensures ReadOne(s, at) == if next > 0x800_0000 then Wrong else Next(s[at..][k + 1..k + 1 + n], next)
  {
    hide First, BodyLength, LineEnd;
  }

  lemma TextRead(p: string, x: string, e: Ends, t: string)
    requires |x| < 0x8000_0000
    ensures var s, next := p + (Head(|x|, e.head) + "\n" + (x + (Eol(e.body) + t))), |p| + |Typed(x, e)|;
      ReadOne(s, |p|) == if next > 0x800_0000 then Wrong else Next(x, next)
  {
    hide Decimal, BodyLength, First, Head, Eol, LineEnd, Typed, ReadOne;
    var n, head, tail := |x|, Head(|x|, e.head), Eol(e.body) + t;
    var s := p + (head + "\n" + (x + tail));
    HeadLength(n, e.head);
    Placed(p, head, x, tail);
    TypedSize(x, e);
    assert First(s[|p|..], ForChar('\n')) == |head| by {
      HeadEnds(n, e.head, x + tail);
    }
    assert BodyLength(head) == n by {
      HeadRead(n, e.head);
    }
    EolFound(s, |p| + |head| + 1 + n, e.body, t);
    ReadOneIs(s, |p|, |head|, n, |p| + |Typed(x, e)|);
  }

  /** One record: what comes before it matters only for the size of the packet. */
  lemma RecordRead(p: string, x: string, e: Ends, t: string)
    requires |x| < 0x8000_0000
    ensures var s := p + (Typed(x, e) + t);
      ReadOne(s, |p|) == if |p + Typed(x, e)| > 0x800_0000 then Wrong else Next(x, |p + Typed(x, e)|)
  {
    hide Head, Eol, Typed, ReadOne;
    TypedSplit(x, e, t);
    TextRead(p, x, e, t);
  }

  lemma Placed(p: string, head: string, x: string, tail: string)
    requires head != ""
    ensures var s, k := p + (head + "\n" + (x + tail)), |head|;
      && s[|p|..] == head + "\n" + (x + tail) && s[|p|] == head[0] && s[|p|..][..k] == head
      && s[|p|..][k + 1..k + 1 + |x|] == x && s[|p| + k + 1 + |x|..] == tail
  {}

  lemma TypedSize(x: string, e: Ends)
    ensures |Typed(x, e)| == |Head(|x|, e.head)| + 1 + |x| + |Eol(e.body)|
  {
    hide Decimal;
  }

  lemma EndRead(p: string, cr: bool, t: string)
    ensures var s := p + (Eol(cr) + t); ReadOne(s, |p|) == Done(|p + Eol(cr)|) && s[|p + Eol(cr)|..] == t
  {
    var s := p + (Eol(cr) + t);
    var head := if cr then "\r" else "";
    assert s[|p|..] == head + ['\n'] + t;
    FirstAt(head, '\n', t, ForChar('\n'));
  }

  lemma ReadNext(s: string, at: nat, done: seq<string>)
    requires at < |s|
    ensures var r := ReadOne(s, at);
      && (r.Next? ==> ReadAll(s, at, done) == ReadAll(s, r.at, done + [r.body]))
      && (r.Wrong? ==> ReadAll(s, at, done) == Malformed)
  {
    hide ReadOne;
  }

  lemma {:induction false} AllRead(p: string, records: seq<string>, ends: seq<Ends>, cr: bool, t: string,
                                   done: seq<string>)
    requires Sendable(records) && |ends| == |records| && |p| <= 0x800_0000
    ensures ReadAll(p + (TypedAll(records, ends) + (Eol(cr) + t)), |p|, done) ==
      if |p + TypedAll(records, ends)| > 0x800_0000 then Malformed else Packet(done + records, t)
    decreases |records|
  {
    if records == [] {
      assert p + (TypedAll(records, ends) + (Eol(cr) + t)) == p + (Eol(cr) + t);
      EndRead(p, cr, t);
      assert done + [] == done;
      hide ReadOne, Eol;
    } else {
      var one, rest, tail := Typed(records[0], ends[0]), TypedAll(records[1..], ends[1..]), Eol(cr) + t;
      assert done + [records[0]] + records[1..] == done + records;
      Regrouped(p, one, rest, tail);
      hide Typed, ReadOne, ReadAll, Eol;
      assert TypedAll(records, ends) == one + rest;
      hide TypedAll;
      RecordRead(p, records[0], ends[0], rest + tail);
      ReadNext(p + (one + (rest + tail)), |p|, done);
      if |p + one| <= 0x800_0000 {
        AllRead(p + one, records[1..], ends[1..], cr, t, done + [records[0]]);
      }
    }
  }

  lemma Regrouped(p: string, x: string, r: string, t: string)
    ensures p + ((x + r) + t) == p + (x + (r + t)) == (p + x) + (r + t)
    ensures |p + (x + r)| == |(p + x) + r| && |t| > 0 ==> |p| < |p + (x + (r + t))|
  {}

  lemma FirstDigit(records: seq<string>, ends: seq<Ends>, t: string)
    requires records != [] && |ends| == |records|
    ensures var s := TypedAll(records, ends) + t; s != "" && Digit(s[0])
  {
    hide Decimal;
    var s := TypedAll(records, ends) + t;
    assert TypedAll(records, ends) == Typed(records[0], ends[0]) + TypedAll(records[1..], ends[1..]);
    assert s[0] == Decimal(|records[0]|)[0];
  }

  /** Nothing but line ends. */
  ghost predicate Empties(s: string) {
    forall i :: 0 <= i < |s| ==> s[i] == '\n' || s[i] == '\r'
  }

  lemma {:induction false} LeadingAt(lead: string, s: string)
    requires Empties(lead) && (s == "" || (s[0] != '\n' && s[0] != '\r'))
    ensures Leading(lead + s) == |lead|
  {
    if lead == "" {
      assert lead + s == s;
    } else {
      assert (lead + s)[1..] == lead[1..] + s;
      LeadingAt(lead[1..], s);
    }
  }

  lemma Started(lead: string, s: string)
    requires Empties(lead) && (s == "" || Digit(s[0]))
    ensures Receive(lead + s) == ReadAll(lead + s, |lead|, [])
  {
    LeadingAt(lead, s);
    hide ReadAll, Leading;
  }

  /** What begins with a star is not for this protocol, and what begins with anything but a digit is refused. */
  lemma NotAPacket(lead: string, s: string)
    requires Empties(lead) && s != "" && s[0] != '\n' && s[0] != '\r' && !('0' <= s[0] <= '9')
    ensures Receive(lead + s) == if s[0] == '*' then Redis else if '\n' in s then Malformed else NotReady
  {
    LeadingAt(lead, s);
    assert (lead + s)[|lead|] == s[0] && (lead + s)[|lead|..] == s;
    FirstStops(s, ForChar('\n'));
    hide Leading, BodyLength, LineEnd, First;
  }

  /** A length of more than 18 digits, or one that is negative as a 32-bit integer, is refused. */
  lemma BadLength(lead: string, digits: string, t: string)
    requires Empties(lead) && digits != "" && Digits(digits)
    requires |digits| > 18 || Number(digits) % 0x1_0000_0000 >= 0x8000_0000
    ensures Receive(lead + (digits + ['\n'] + t)) == Malformed
  {
    hide Number, First;
    var text := digits + ['\n'] + t;
    var s := lead + text;
    assert text[0] == digits[0] && s[|lead|..] == text && s[|lead|] == text[0];
    Started(lead, text);
    FirstAt(digits, '\n', t, ForChar('\n'));
    FirstNone(digits, ForNonDigit);
    assert text[..|digits|] == digits && digits[..|digits|] == digits;
    assert ReadOne(s, |lead|) == Wrong;
    ReadNext(s, |lead|, []);
  }

  /**
   * A packet is received record for record whatever line ends it is written with and whatever empty
   * lines come before it, and nothing behind it is touched. It is refused if and only if its records
   * reach beyond 128 MB.
   */
  lemma TypedRoundTrip(lead: string, records: seq<string>, ends: seq<Ends>, cr: bool, t: string)
    requires records != [] && Sendable(records) && |ends| == |records| && Empties(lead) && |lead| <= 0x800_0000
    ensures Receive(lead + (TypedAll(records, ends) + (Eol(cr) + t))) ==
      if |lead + TypedAll(records, ends)| > 0x800_0000 then Malformed else Packet(records, t)
  {
    hide TypedAll, ReadAll, Receive, Eol, Empties;
    FirstDigit(records, ends, Eol(cr) + t);
    Started(lead, TypedAll(records, ends) + (Eol(cr) + t));
    AllRead(lead, records, ends, cr, t, []);
    assert [] + records == records;
  }

  // ---------------------------------------------------------------- a packet as it is sent

  /** Line feeds only. */
  function Plain(n: nat): (r: seq<Ends>)
    ensures |r| == n
  {
    seq(n, _ => Ends(false, false))
  }

  lemma {:induction false} EncodedTyped(records: seq<string>)
    ensures Encoded(records) == TypedAll(records, Plain(|records|)) + Eol(false)
    decreases |records|
  {
    hide Decimal;
    if records != [] {
      EncodedTyped(records[1..]);
      assert Plain(|records|)[1..] == Plain(|records| - 1);
      assert Record(records[0]) == Typed(records[0], Ends(false, false));
      hide Typed;
    }
  }

  /** What was sent is received, and nothing behind it is touched, if and only if it is not more than 128 MB. */
  lemma RoundTrip(records: seq<string>, t: string)
    requires records != [] && Sendable(records)
    ensures Receive(Encoded(records) + t) ==
      if |Encoded(records)| > 0x800_0001 then Malformed else Packet(records, t)
  {
    hide Encoded, TypedAll, Receive, Record, Typed;
    EncodedTyped(records);
    var typed := TypedAll(records, Plain(|records|));
    assert Encoded(records) + t == "" + (typed + (Eol(false) + t));
    assert |"" + typed| == |Encoded(records)| - 1;
    TypedRoundTrip("", records, Plain(|records|), false, t);
  }

  // ---------------------------------------------------------------- a packet that is not all there

  /** The head is not complete. */
  lemma HeadWaits(p: string, n: nat, cr: bool, t: string)
    requires t != "" && t <= Head(n, cr)
    ensures ReadOne(p + t, |p|) == Wait
  {
    hide Head, First;
    assert (p + t)[|p|..] == t == Head(n, cr)[..|t|];
    NoLineFeed(n, cr, |t|);
  }

  /** The body or its line end is missing. */
  lemma BodyWaits(p: string, x: string, e: Ends, u: string)
    requires |x| < 0x8000_0000 && u <= x + Eol(e.body) && |u| < |x + Eol(e.body)|
    ensures ReadOne(p + (Head(|x|, e.head) + "\n" + u), |p|) == Wait
  {
    hide Decimal, BodyLength, First, LineEnd, Head, Eol;
    var n, head := |x|, Head(|x|, e.head);
    var t, k := head + "\n" + u, |head|;
    var s := p + t;
    assert s[|p|..] == t;
    HeadEnds(n, e.head, u);
    HeadRead(n, e.head);
    HeadLength(n, e.head);
    assert t[..k] == head && t[0] == head[0];
    if |u| >= n {
      assert s[|p| + k + 1 + n..] == Eol(e.body)[..|u| - n];
      EolCut(s, |p| + k + 1 + n, e.body);
    }
  }

  lemma RecordWaits(p: string, x: string, e: Ends, t: string)
    requires |x| < 0x8000_0000 && t != "" && t <= Typed(x, e) && |t| < |Typed(x, e)|
    ensures ReadOne(p + t, |p|) == Wait
  {
    var head, k := Head(|x|, e.head), |Head(|x|, e.head)|;
    hide Head, Eol, ReadOne, Typed;
    TypedSplit(x, e, "");
    assert Typed(x, e) + "" == Typed(x, e) && Eol(e.body) + "" == Eol(e.body);
    if |t| <= k {
      assert t == head[..|t|];
      HeadWaits(p, |x|, e.head, t);
    } else {
      var u := t[k + 1..];
      assert u == (x + Eol(e.body))[..|u|] && t == head + "\n" + u;
      BodyWaits(p, x, e, u);
    }
  }

  lemma NoLineFeed(n: nat, cr: bool, k: nat)
    requires k <= |Head(n, cr)|
    ensures First(Head(n, cr)[..k], ForChar('\n')) == k
  {
    hide Decimal;
    FirstNone(Head(n, cr)[..k], ForChar('\n'));
  }

  lemma EolCut(s: string, at: nat, cr: bool)
    requires at <= |s| && s[at..] <= Eol(cr) && |s[at..]| < |Eol(cr)|
    ensures LineEnd(s, at) == None
  {
    assert at < |s| ==> s[at] == s[at..][0];
  }

  lemma {:induction false} AllWait(p: string, records: seq<string>, ends: seq<Ends>, cr: bool, t: string,
                                   done: seq<string>)
    requires Sendable(records) && |ends| == |records| && |p + TypedAll(records, ends)| <= 0x800_0000
    requires t <= TypedAll(records, ends) + Eol(cr) && |t| < |TypedAll(records, ends) + Eol(cr)|
    ensures ReadAll(p + t, |p|, done) == NotReady
    decreases |records|
  {
    if t == "" {
      assert p + t == p;
    } else if records == [] {
      assert TypedAll(records, ends) + Eol(cr) == Eol(cr);
      EndWaits(p, cr, t);
    } else {
      hide Typed, ReadOne, Eol, ReadAll;
      var one, rest := Typed(records[0], ends[0]), TypedAll(records[1..], ends[1..]) + Eol(cr);
      assert TypedAll(records, ends) + Eol(cr) == one + rest;
      if |t| < |one| {
        assert t == one[..|t|];
        RecordWaits(p, records[0], ends[0], t);
        Waits(p + t, |p|, done);
      } else {
        var u := t[|one|..];
        Behind(p, one, rest, t);
        RecordRead(p, records[0], ends[0], u);
        ReadNext(p + t, |p|, done);
        AllWait(p + one, records[1..], ends[1..], cr, u, done + [records[0]]);
      }
    }
  }

  lemma Behind(p: string, one: string, rest: string, t: string)
    requires t <= one + rest && |one| <= |t|
    ensures var u := t[|one|..]; u <= rest && p + t == p + (one + u) == (p + one) + u
  {
    var u := t[|one|..];
    assert t == one + u && u == rest[..|u|];
  }

  lemma Waits(s: string, at: nat, done: seq<string>)
    requires at < |s| && ReadOne(s, at).Wait?
    ensures ReadAll(s, at, done) == NotReady
  {}

  lemma EndWaits(p: string, cr: bool, t: string)
    requires t != "" && t <= Eol(cr) && |t| < |Eol(cr)|
    ensures ReadOne(p + t, |p|) == Wait
  {
    assert t == "\r" && (p + t)[|p|..] == t;
    FirstNone(t, ForChar('\n'));
  }

  /** As long as part of a packet is missing, it is not ready. */
  lemma PrefixWaits(lead: string, records: seq<string>, ends: seq<Ends>, cr: bool, t: string)
    requires records != [] && Sendable(records) && |ends| == |records| && Empties(lead)
    requires |lead + TypedAll(records, ends)| <= 0x800_0000
    requires t <= TypedAll(records, ends) + Eol(cr) && |t| < |TypedAll(records, ends) + Eol(cr)|
    ensures Receive(lead + t) == NotReady
  {
    hide TypedAll, ReadAll, Receive, Eol, Empties;
    FirstDigit(records, ends, Eol(cr));
    assert t != "" ==> t[0] == (TypedAll(records, ends) + Eol(cr))[0];
    Started(lead, t);
    AllWait(lead, records, ends, cr, t, []);
  }

  // ---------------------------------------------------------------- the link

  class Link {
    const input: Bytes
    const output: Bytes

    constructor ()
      ensures fresh(input) && fresh(output) && input.Valid() && output.Valid()
      ensures input.Content() == "" && output.Content() == ""
    {
      input := new Bytes(8 * 1024);
      output := new Bytes(8 * 1024);
    }

    /** send: every record, and an empty line. */
    method Send(resp: seq<string>)
      requires output.Valid() && Sendable(resp)
      modifies output, output.buf
      ensures output.Valid()
      ensures output.Content() == old(output.Content()) + if resp == [] then "" else Encoded(resp)
    {
      if resp == [] {
        return;
      }
      ghost var was := output.Content();
      assert resp[..0] == [] && was + "" == was;
      hide Record, Encoded;
      for i := 0 to |resp|
        invariant output.Valid() && output.Content() == was + Written(resp[..i])
        invariant output.buf == old(output.buf) || fresh(output.buf)
      {
        WrittenPush(was, resp, i);
        var n := output.AppendRecord(resp[i]);
      }
      assert resp[..|resp|] == resp;
      WrittenEncoded(resp);
      assert was + Written(resp) + "\n" == was + (Written(resp) + "\n");
      output.Append('\n');
    }

    /** recv: on anything but a packet the contents stay as they are, however the buffer is rearranged. */
    method Recv() returns (r: Received)
      requires input.Valid()
      modifies input, input.buf
      ensures input.Valid()
      ensures r == (if old(input.Content()) == "" then NotReady else Receive(old(input.Content())))
      ensures input.Content() == if r.Packet? then r.rest else old(input.Content())
      ensures r == NotReady && old(input.Content()) != "" ==> input.Space() > 0
    {
      if input.size == 0 {
        return NotReady;
      }
      var s := input.Content();
      var parsed := SkipEmpty(s);
      if parsed < |s| && s[parsed] == '*' {
        return Redis;
      }
      var data := [];
      while parsed < |s|
        invariant parsed <= |s| && ReadAll(s, parsed, data) == ReadAll(s, Leading(s), [])
        decreases |s| - parsed
      {
        hide ReadOne;
        match ReadOne(s, parsed)
        case Next(body, at) =>
          data := data + [body];
          parsed := at;
        case Done(at) =>
          input.Decr(at);
          return Packet(data, s[at..]);
        case Wrong =>
          return Malformed;
        case Wait =>
          MakeRoom();
          return NotReady;
      }
      MakeRoom();
      r := NotReady;
    }

    method SkipEmpty(s: string) returns (parsed: nat)
      ensures parsed == Leading(s)
    {
      parsed := 0;
      while parsed < |s| && (s[parsed] == '\n' || s[parsed] == '\r')
        invariant parsed <= |s| && Leading(s) == parsed + Leading(s[parsed..])
      {
        assert s[parsed..][1..] == s[parsed + 1..];
        parsed := parsed + 1;
      }
    }

    method MakeRoom()
      requires input.Valid()
      modifies input, input.buf
      ensures input.Valid() && input.Content() == old(input.Content()) && input.Space() > 0
    {
      if input.Space() == 0 {
        input.Nice();
        if input.Space() == 0 {
          input.Grow();
        }
      }
    }
  }

  /** Records one after the other. */
  function Written(records: seq<string>): string {
    if records == [] then "" else Written(records[..|records| - 1]) + Record(records[|records| - 1])
  }

  lemma WrittenPush(was: string, records: seq<string>, i: nat)
    requires i < |records|
    ensures was + Written(records[..i]) + Record(records[i]) == was + Written(records[..i + 1])
  {
    hide Record;
    assert records[..i + 1][..i] == records[..i];
  }

  lemma WrittenLast(records: seq<string>, last: string)
    ensures Written(records + [last]) == Written(records) + Record(last)
  {
    hide Record;
    assert (records + [last])[..|records|] == records;
  }

  lemma {:induction false} WrittenFirst(records: seq<string>)
    requires records != []
    ensures Written(records) == Record(records[0]) + Written(records[1..])
    decreases |records|
  {
    var init, last := records[..|records| - 1], records[|records| - 1];
    WrittenLast(init, last);
    assert records == init + [last];
    if init != [] {
      WrittenLast(init[1..], last);
      assert records[1..] == init[1..] + [last] && records[0] == init[0];
      hide Record, Written;
      WrittenFirst(init);
      assert Record(records[0]) + Written(init[1..]) + Record(last) ==
        Record(records[0]) + (Written(init[1..]) + Record(last));
    }
  }

  lemma {:induction false} WrittenEncoded(records: seq<string>)
    ensures Written(records) + "\n" == Encoded(records)
  {
    if records != [] {
      WrittenFirst(records);
      WrittenEncoded(records[1..]);
      hide Record;
    }
  }
}
