/** When the loop of the reply parser goes round without getting anywhere. */
module ReplySpins {
  import opened Stream
  import opened Reply
  import opened ReplyTheorems
  import opened Wrappers

  // ---------------------------------------------------------------- one round

  /** A reply begins like none that is known, in a way start_state does not notice. */
  predicate Unknown(s: string) {
    || (|s| >= 2 && s[0] == 'V' && s[1] !in {'A', 'E'})
    || (|s| >= 2 && s[0] == 'E' && s[1] !in {'R', 'N', 'X'})
    || (|s| >= 5 && s[0] == 'N' && s[4] !in {'F', 'S'})
  }

  lemma HeadSpins(p: Parser<string>, s: string)
    requires p.fsm == Start
    ensures Round(p, s) == Spin <==> Unknown(s)
  {
    hide Expect, Until, Answer;
  }

  lemma DataNeverSpins(p: Parser<string>, s: string)
    requires p.retrievals != [] && Last(p.retrievals).bytesRemain in {Last(p.retrievals).bytes, 0}
    ensures DataRound(p, s) != Spin
  {}

  /** The data of a value never make the loop spin. */
  lemma ValueNeverSpins(p: Parser<string>, s: string)
    requires Sane(p) && p.fsm == GetValueRemaining
    ensures Round(p, s) != Spin
  {
    if p.retrievals != [] {
      hide Round, DataRound;
      var r := Last(p.retrievals);
      IsValueRound(p, s);
      if r.bytesRemain == (r.bytes + 1) % U32 {
        var skipped := r.(bytesRemain := r.bytes);
        assert (r.bytesRemain + U32 - 1) % U32 == r.bytes;
        LastTwice(p.retrievals, skipped, skipped);
        if s != "" {
          DataNeverSpins(WithLast(p, skipped, p.fsm), s[1..]);
        }
      } else {
        DataNeverSpins(p, s);
      }
    }
  }

  lemma StartGoes(p: Parser<string>, s: string)
    requires p.fsm == Start
    ensures Round(p, s).Go? ==> Round(p, s).p.fsm != Error && Round(p, s).p.mode == p.mode
  {
    hide Expect, Until;
  }

  lemma RoundGoes(p: Parser<string>, s: string)
    ensures Round(p, s).Go? ==> Round(p, s).p.fsm != Error && Round(p, s).p.mode == p.mode
  {
    hide Until, Unsigned, StartRound;
    if p.fsm == Start {
      StartGoes(p, s);
    }
  }

  /** A round gets nowhere if and only if the reply is unknown, or the parser has been told the end before. */
  lemma RoundSpins(p: Parser<string>, s: string)
    requires Sane(p)
    ensures Round(p, s) == Spin <==> (p.fsm == Start && Unknown(s)) || p.fsm in {End, Error}
  {
    hide Until, Unsigned, StartRound, ValueRound;
    if p.fsm == Start {
      HeadSpins(p, s);
    } else if p.fsm == GetValueRemaining {
      ValueNeverSpins(p, s);
    }
  }

  /** Where the loop ends, or stays. */
  function Halt(p: Parser<string>, s: string): (Parser<string>, string)
    decreases |s|, Rank(p.fsm)
  {
    if CanEnd(p) then (p, s)
    else
      var r := Round(p, s);
      if r.Go? then
        RoundReads(p, s);
        Halt(r.p, r.rest)
      else (p, s)
  }

  /**
   * Which state a call hangs in, for every stream: before a reply it does not know, or behind the
   * end of a reply when it counts answers and has not had enough.
   */
  lemma {:induction false} SpinsWhere(p: Parser<string>, s: string)
    requires Sane(p) && p.fsm != Error
    ensures var (q, rest) := Halt(p, s);
      && (Run(p, s) == Spin <==>
            !CanEnd(q) && ((q.fsm == Start && Unknown(rest)) || (q.fsm == End && q.mode == Counting)))
      && q.mode == p.mode
    decreases |s|, Rank(p.fsm)
  {
    hide Round, Sane, Unknown;
    if !CanEnd(p) {
      RunRound(p, s);
      RoundSpins(p, s);
      RoundGoes(p, s);
      RoundSane(p, s);
      var r := Round(p, s);
      if r.Go? {
        SpinsWhere(r.p, r.rest);
      }
    }
  }

  // ---------------------------------------------------------------- who is to blame

  /** It begins like a server error. */
  predicate BlamesServer(s: string) {
    |s| >= 2 && s[0] == 'S' && s[1] != 'T'
  }

  lemma StartFails(p: Parser<string>, s: string)
    ensures var r := StartRound(p, s);
      r.Fail? ==> r.code == if BlamesServer(s) then Code.ServerError else Programming
  {
    hide Expect, Until;
  }

  /**
   * A call that fails blames the server if and only if it stopped before a line that begins with S
   * and not with ST, and the caller otherwise.
   */
  lemma {:induction false} Blamed(p: Parser<string>, s: string)
    ensures var (r, (q, rest)) := (Run(p, s), Halt(p, s));
      r.Fail? ==> r.code == if q.fsm == Start && BlamesServer(rest) then Code.ServerError else Programming
    decreases |s|, Rank(p.fsm)
  {
    if !CanEnd(p) {
      RunRound(p, s);
      StartFails(p, s);
      hide StartRound, Unsigned, Until, BlamesServer;
      var r := Round(p, s);
      if r.Go? {
        Blamed(r.p, r.rest);
      }
    }
  }

  /** A reply that begins with a letter no reply begins with is refused, and left. */
  lemma Refused(p: Parser<string>, s: string)
    requires p.fsm == Start && Awaits(p) && s != "" && s[0] !in "VEOSDNTC" && !('0' <= s[0] <= '9')
    ensures Run(p, s) == Fail(Programming, p, Some(s))
  {
    assert forall i :: 0 <= i < 8 ==> s[0] != "VEOSDNTC"[i];
    RunRound(p, s);
    hide Expect, Until;
  }

  // ---------------------------------------------------------------- streams of well-formed replies

  /** One part of what a server sends. */
  datatype Part =
    | Value(item: Item)
    | EndMark
    | Version(text: string)
    | Stat(text: string)
    | Status(kind: Kind)
    | Total(n: nat)
    | ErrorReply
    | ClientError(text: string)
    | ServerError(text: string)

  predicate GoodPart(x: Part) {
    match x
    case Value(item) => Sendable(item)
    case Version(text) => '\n' !in text
    case Stat(text) => '\n' !in text
    case ClientError(text) => '\n' !in text
    case ServerError(text) => '\n' !in text
    case _ => true
  }

  function PartText(x: Part): string {
    match x
    case Value(item) => Encode(item)
    case EndMark => "END\r\n"
    case Version(text) => "VERSION " + (text + "\n")
    case Stat(text) => "STAT " + (text + "\n")
    case Status(kind) => Word(kind)
    case Total(n) => Decimal(n) + "\r\n"
    case ErrorReply => "ERROR\r\n"
    case ClientError(text) => "CLIENT_ERROR " + (text + "\n")
    case ServerError(text) => "SERVER_ERROR " + (text + "\n")
  }

  function PartsText(parts: seq<Part>): string {
    if parts == [] then "" else PartText(parts[0]) + PartsText(parts[1..])
  }

  /** It ends a reply for the parser. */
  predicate Closes(x: Part) {
    x.EndMark? || x.Version?
  }

  /** It answers a pending key. */
  predicate Replies(x: Part) {
    x.Status? || x.Total?
  }

  /** It reports an error. */
  predicate Breaks(x: Part) {
    x.ErrorReply? || x.ClientError? || x.ServerError?
  }

  function After(p: Parser<string>, x: Part): Parser<string>
    requires !Breaks(x) && (x.Total? ==> p.keys != [])
  {
    match x
    case Value(item) => With(p, Parsed(item), Start)
    case EndMark => p.(fsm := End)
    case Version(text) => p.(lines := p.lines + [Line(text, |text|)], fsm := End)
    case Stat(text) => p.(lines := p.lines + [Line(text, |text|)], fsm := Start)
    case Status(kind) =>
      if p.keys == [] then p.(messages := p.messages + [Unasked])
      else p.(messages := p.messages + [Message(kind, p.keys[0])], keys := p.keys[1..])
    case Total(n) =>
      p.(counters := p.counters + [Counter(n % 0x1_0000_0000_0000_0000, p.keys[0])], keys := p.keys[1..])
  }

  lemma LineWord(p: Parser<string>, lit: string, text: string, fsm: Fsm, next: Fsm, t: string)
    requires p.fsm == Start && Awaits(p) && '\n' !in text
    requires (lit, fsm, next) in {("VERSION ", VerStart, End), ("STAT ", StatStart, Start)}
    ensures Run(p, lit + (text + "\n") + t) == Run(p.(lines := p.lines + [Line(text, |text|)], fsm := next), t)
  {
    var s := text + "\n" + t;
    var q := p.(lines := p.lines + [Line("", 0)], fsm := fsm);
    assert lit + (text + "\n") + t == lit + s;
    LineHead(p, lit, fsm, s);
    UntilAt(text, '\n', t);
    assert SetLast(q.lines, Line(text, |text|)) == p.lines + [Line(text, |text|)];
    hide Run, Until, Expect;
    Parsing(p, lit + s);
    assert Round(q, s) == Go(p.(lines := p.lines + [Line(text, |text|)], fsm := next), t);
    Parsing(q, s);
  }

  lemma LineHead(p: Parser<string>, lit: string, fsm: Fsm, s: string)
    requires p.fsm == Start && (lit, fsm) in {("VERSION ", VerStart), ("STAT ", StatStart)}
    ensures Round(p, lit + s) == Go(p.(lines := p.lines + [Line("", 0)], fsm := fsm), s)
  {
    ExpectAt(lit, s);
    hide Expect;
    assert (lit + s)[0] == lit[0] && (lit + s)[1] == lit[1] && (lit + s)[2] == lit[2];
  }

  lemma TotalHead(p: Parser<string>, n: nat, t: string)
    requires p.fsm == Start
    ensures Round(p, Decimal(n) + "\r\n" + t)
      == Go(p.(fsm := IncrDecrStart, counters := p.counters + [Counter(0, "")]), Decimal(n) + "\r\n" + t)
  {
    var s := Decimal(n) + "\r\n" + t;
    assert s[0] == Decimal(n)[0] && Digit(Decimal(n)[0]);
  }

  lemma TotalRest(q: Parser<string>, t: string)
    requires q.fsm == IncrDecrRemaining && q.keys != []
    ensures Round(q, "\n" + t) == Go(q.(keys := q.keys[1..], fsm := Start), t)
  {
    UntilAt("", '\n', t);
    assert "" + ['\n'] + t == "\n" + t;
    hide Until;
  }

  lemma TotalNumber(q: Parser<string>, n: nat, t: string)
    requires q.fsm == IncrDecrStart && q.counters != []
    ensures Round(q, Decimal(n) + "\r\n" + t) ==
      if q.keys == [] then Crash
      else Go(q.(counters := SetLast(q.counters, Counter(n % U64, q.keys[0])), fsm := IncrDecrRemaining), "\n" + t)
  {
    UnsignedAt(n, '\r', "\n" + t);
    assert Decimal(n) + "\r\n" + t == Decimal(n) + ['\r'] + ("\n" + t);
    hide Unsigned, Decimal;
  }

  lemma TotalParsed(p: Parser<string>, n: nat, t: string)
    requires p.fsm == Start && Awaits(p)
    ensures Run(p, Decimal(n) + "\r\n" + t) == if p.keys == [] then Crash else Run(After(p, Total(n)), t)
  {
    hide Run, Round, Decimal;
    var s := Decimal(n) + "\r\n" + t;
    var q := p.(fsm := IncrDecrStart, counters := p.counters + [Counter(0, "")]);
    TotalHead(p, n, t);
    Parsing(p, s);
    TotalNumber(q, n, t);
    if p.keys == [] {
      RunRound(q, s);
    } else {
      Parsing(q, s);
      var u := q.(counters := SetLast(q.counters, Counter(n % U64, p.keys[0])), fsm := IncrDecrRemaining);
      TotalRest(u, t);
      Parsing(u, "\n" + t);
      assert SetLast(q.counters, Counter(n % U64, p.keys[0])) == p.counters + [Counter(n % U64, p.keys[0])];
    }
  }

  lemma StatusParsed(p: Parser<string>, kind: Kind, t: string)
    requires p.fsm == Start && Awaits(p)
    ensures Run(p, Word(kind) + t) == Run(Reply.Answer(p, kind), t)
  {
    hide Run, Word;
    WordRead(p, kind, t);
    Parsing(p, Word(kind) + t);
  }

  lemma EndRead(p: Parser<string>, t: string)
    requires p.fsm == Start && Awaits(p)
    ensures Run(p, "END\r\n" + t) == Run(p.(fsm := End), t)
  {
    hide Run;
    EndWord(p, t);
    Parsing(p, "END\r\n" + t);
  }

  lemma ErrorHead(p: Parser<string>, s: string)
    requires p.fsm == Start && ("ERROR" <= s || "CLIENT_ERROR " <= s || "SERVER_ERROR " <= s)
    ensures Round(p, s) == ErrorLine(p, s, if "SERVER_ERROR " <= s then Code.ServerError else Programming)
  {
    hide ErrorLine, AfterExpect;
    var lit := if "ERROR" <= s then "ERROR" else if "CLIENT_ERROR " <= s then "CLIENT_ERROR " else "SERVER_ERROR ";
    assert s[0] == lit[0] && s[1] == lit[1];
  }

  /** An error line ends the call; what follows it is left. */
  lemma ErrorParsed(p: Parser<string>, lit: string, text: string, t: string)
    requires p.fsm == Start && Awaits(p) && '\n' !in text && lit in {"ERROR", "CLIENT_ERROR ", "SERVER_ERROR "}
    ensures Run(p, lit + (text + "\n") + t) ==
      Fail(if lit == "SERVER_ERROR " then Code.ServerError else Programming, p.(fsm := Error), Some(t))
  {
    var s := lit + (text + "\n") + t;
    assert s == (lit + text) + ['\n'] + t;
    assert lit == s[..|lit|];
    assert lit[0] == "ECS"[if lit == "ERROR" then 0 else if lit == "CLIENT_ERROR " then 1 else 2];
    UntilAt(lit + text, '\n', t);
    ErrorHead(p, s);
    hide Run, Round, Until;
    RunRound(p, s);
  }

  /**
   * Each part of a stream is read to its end, and means what it says. After an error nothing more is
   * read: the server is to blame for SERVER_ERROR, the caller for the two others.
   */
  lemma PartParsed(p: Parser<string>, x: Part, t: string)
    requires p.fsm == Start && Awaits(p) && GoodPart(x)
    ensures x.ErrorReply? ==> Run(p, PartText(x) + t) == Fail(Programming, p.(fsm := Error), Some(t))
    ensures x.ClientError? ==> Run(p, PartText(x) + t) == Fail(Programming, p.(fsm := Error), Some(t))
    ensures x.ServerError? ==> Run(p, PartText(x) + t) == Fail(Code.ServerError, p.(fsm := Error), Some(t))
    ensures !Breaks(x) ==>
      Run(p, PartText(x) + t) == if x.Total? && p.keys == [] then Crash else Run(After(p, x), t)
  {
    hide Run, Encode, Decimal, Sendable, Word;
    match x
    case Value(item) => ItemParsed(p, item, t);
    case EndMark => EndRead(p, t);
    case Version(text) => LineWord(p, "VERSION ", text, VerStart, End, t);
    case Stat(text) => LineWord(p, "STAT ", text, StatStart, Start, t);
    case Status(kind) => StatusParsed(p, kind, t);
    case Total(n) => TotalParsed(p, n, t);
    case ErrorReply =>
      assert "ERROR\r\n" == "ERROR" + ("\r" + "\n");
      ErrorParsed(p, "ERROR", "\r", t);
    case ClientError(text) => ErrorParsed(p, "CLIENT_ERROR ", text, t);
    case ServerError(text) => ErrorParsed(p, "SERVER_ERROR ", text, t);
  }

  // ---------------------------------------------------------------- the exact condition

  function Answered(parts: seq<Part>): nat {
    if parts == [] then 0 else (if Replies(parts[0]) then 1 else 0) + Answered(parts[1..])
  }

  /** A reply is ended before `n` keys have been answered, and no error is reported before that. */
  ghost predicate EndsEarly(parts: seq<Part>, n: nat) {
    exists k :: 0 <= k < |parts| && Closes(parts[k]) && Answered(parts[..k]) < n && Unbroken(parts[..k])
  }

  ghost predicate Unbroken(parts: seq<Part>) {
    forall j :: 0 <= j < |parts| ==> !Breaks(parts[j])
  }

  lemma EndsEarlyStep(parts: seq<Part>, n: nat)
    requires parts != [] && n > 0
    ensures EndsEarly(parts, n) <==>
      Closes(parts[0]) || (!Breaks(parts[0]) && EndsEarly(parts[1..], if Replies(parts[0]) then n - 1 else n))
  {
    var rest, m := parts[1..], if Replies(parts[0]) then n - 1 else n;
    if Closes(parts[0]) {
      assert Answered(parts[..0]) == 0 && Unbroken(parts[..0]);
    } else {
      forall k | 0 <= k < |rest|
        ensures Answered(parts[..k + 1]) == Answered(rest[..k]) + n - m
        ensures Unbroken(parts[..k + 1]) <==> !Breaks(parts[0]) && Unbroken(rest[..k])
      {
        assert parts[..k + 1] == [parts[0]] + rest[..k];
      }
      hide Answered, Unbroken;
      if EndsEarly(parts, n) {
        var k :| 0 <= k < |parts| && Closes(parts[k]) && Answered(parts[..k]) < n && Unbroken(parts[..k]);
        assert Closes(rest[k - 1]) && Answered(rest[..k - 1]) < m && Unbroken(rest[..k - 1]);
      }
      if EndsEarly(rest, m) && !Breaks(parts[0]) {
        var k :| 0 <= k < |rest| && Closes(rest[k]) && Answered(rest[..k]) < m && Unbroken(rest[..k]);
        assert Closes(parts[k + 1]) && Answered(parts[..k + 1]) < n && Unbroken(parts[..k + 1]);
      }
    }
  }

  lemma NoPart(p: Parser<string>)
    requires p.fsm == Start
    ensures Run(p, "") != Spin
  {
    if !CanEnd(p) {
      RunRound(p, "");
    }
  }

  lemma Closed(p: Parser<string>, t: string)
    requires p.fsm == End
    ensures Run(p, t) == if CanEnd(p) then Go(p, t) else Spin
  {}

  /**
   * On a stream of well-formed replies a call hangs if and only if it counts answers and the end of
   * a reply, or a version, comes before the last pending key is answered and before any error.
   */
  lemma {:induction false} SpinsIff(p: Parser<string>, parts: seq<Part>)
    requires p.fsm == Start && forall k :: 0 <= k < |parts| ==> GoodPart(parts[k])
    ensures Run(p, PartsText(parts)) == Spin <==> p.mode == Counting && EndsEarly(parts, |p.keys|)
    decreases |parts|
  {
    hide Run, GoodPart, PartText, EndsEarly;
    if !Awaits(p) {
      Done(p, parts);
    } else if parts == [] {
      NoPart(p);
      NeverEarly(|p.keys|);
    } else {
      var x, t := parts[0], PartsText(parts[1..]);
      PartParsed(p, x, t);
      if !Breaks(x) && !(x.Total? && p.keys == []) {
        OnePart(p, x);
        if Closes(x) {
          Closed(After(p, x), t);
        } else {
          SpinsIff(After(p, x), parts[1..]);
        }
      }
      if p.mode == Counting {
        EndsEarlyStep(parts, |p.keys|);
      }
    }
  }

  lemma Done(p: Parser<string>, parts: seq<Part>)
    requires !Awaits(p)
    ensures Run(p, PartsText(parts)) != Spin && !EndsEarly(parts, |p.keys|)
  {
    hide PartsText;
  }

  lemma NeverEarly(n: nat)
    ensures !EndsEarly([], n)
  {}

  lemma OnePart(p: Parser<string>, x: Part)
    requires p.fsm == Start && !Breaks(x) && !(x.Total? && p.keys == [])
    ensures var q := After(p, x);
      && q.mode == p.mode && q.fsm == (if Closes(x) then End else Start)
      && (p.keys != [] ==> |q.keys| == |p.keys| - if Replies(x) then 1 else 0)
  {}

  // ---------------------------------------------------------------- inputs that hang

  /** Any known state and any reply that begins like none: the loop stays where it is. */
  lemma UnknownHangs(p: Parser<string>, s: string)
    requires p.fsm == Start && Awaits(p) && Unknown(s)
    ensures Run(p, s) == Spin
  {
    HeadSpins(p, s);
    RunRound(p, s);
    hide Round;
  }

  /** A get reply in either mode: counted, it is read to its end and never left. */
  lemma {:induction false} ItemsOutcome(p: Parser<string>, items: seq<Item>, t: string)
    requires p.fsm == Start && forall k :: 0 <= k < |items| ==> Sendable(items[k])
    ensures Run(p, EncodeAll(items) + t) ==
      if p.mode == EndState then Go(p.(fsm := End, retrievals := p.retrievals + ParsedAll(items)), t)
      else if p.keys == [] then Go(p, EncodeAll(items) + t)
      else Spin
    decreases |items|
  {
    hide Encode, Parsed, Sendable, Round;
    if p.mode == EndState {
      ItemsParsed(p, items, t);
    } else if p.keys != [] {
      if items == [] {
        EndRead(p, t);
        Closed(p.(fsm := End), t);
      } else {
        var rest := EncodeAll(items[1..]);
        assert EncodeAll(items) + t == Encode(items[0]) + (rest + t);
        ItemParsed(p, items[0], rest + t);
        ItemsOutcome(With(p, Parsed(items[0]), Start), items[1..], t);
      }
    }
  }
}
