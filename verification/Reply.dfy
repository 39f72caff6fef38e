/**
 * The memcached reply parser on one flat stream: what one round of its loop does, what a whole call
 * does, and that how the stream is cut into received pieces makes no difference.
 */
module Reply {
  import opened Stream
  import opened Wrappers

  // ---------------------------------------------------------------- reading from the flat stream

  /** What a reading operation finds: a value and the rest, too little, or something unexpected. */
  datatype Read<V> = Got(value: V, rest: string) | Short | Bad

  function Expect(s: string, lit: string): (r: Read<()>)
    ensures r.Got? ==> |r.rest| == |s| - |lit|
  {
    if |s| < |lit| then Short else if lit <= s then Got((), s[|lit|..]) else Bad
  }

  /** Up to a character, and past it. */
  function Until(s: string, c: char): (r: Read<string>)
    ensures r.Got? ==> |r.rest| < |s|
  {
    var k := First(s, ForChar(c));
    if k == |s| then Short else Got(s[..k], s[k + 1..])
  }

  /** A number that something else follows, and past what follows. */
  function Unsigned(s: string): (r: Read<nat>)
    ensures r.Got? ==> |r.rest| < |s|
  {
    var k := First(s, ForNonDigit);
    if |s| < 2 then Short
    else if k == 0 then Bad
    else if k == |s| then Short
    else
      FirstStops(s, ForNonDigit);
      Got(Number(s[..k]), s[k + 1..])
  }

  /** With more bytes at hand an operation that did not run short finds the same. */
  ghost predicate Stable<V(!new)>(a: Read<V>, more: Read<V>, b: string) {
    match a
    case Got(v, rest) => more == Got(v, rest + b)
    case Short => true
    case Bad => more == Bad
  }

  lemma ExpectStable(a: string, b: string, lit: string)
    ensures Stable(Expect(a, lit), Expect(a + b, lit), b)
  {
    if |a| >= |lit| {
      assert (a + b)[..|lit|] == a[..|lit|];
      assert (a + b)[|lit|..] == a[|lit|..] + b;
    }
  }

  lemma UntilStable(a: string, b: string, c: char)
    ensures Stable(Until(a, c), Until(a + b, c), b)
  {
    FirstConcat(a, b, ForChar(c));
    var k := First(a, ForChar(c));
    if k < |a| {
      assert (a + b)[..k] == a[..k];
      assert (a + b)[k + 1..] == a[k + 1..] + b;
    }
  }

  lemma UnsignedStable(a: string, b: string)
    ensures Stable(Unsigned(a), Unsigned(a + b), b)
  {
    FirstConcat(a, b, ForNonDigit);
    var k := First(a, ForNonDigit);
    if k < |a| {
      assert (a + b)[..k] == a[..k];
      assert (a + b)[k + 1..] == a[k + 1..] + b;
    }
  }

  // ---------------------------------------------------------------- the parser's state

  datatype Mode = EndState | Counting

  datatype Fsm =
    | Start | End | Error
    | GetStart | GetKey | GetFlag | GetBytesCas | GetValueRemaining
    | VerStart | StatStart
    | IncrDecrStart | IncrDecrRemaining

  datatype Kind = Exists | Ok | Stored | NotStored | NotFound | Deleted | Touched

  /** A token is a text here, and a list of slices in the reader. */
  datatype Retrieval<T> = Retrieval(key: T, keyLen: nat, flags: nat, bytes: nat, bytesRemain: nat, cas: nat, data: T)
  datatype Line<T> = Line(text: T, len: nat)
  datatype Message = Message(kind: Kind, key: string) | Unasked
  datatype Counter = Counter(value: nat, key: string)

  datatype Parser<T> = Parser(
    mode: Mode, fsm: Fsm, keys: seq<string>,
    retrievals: seq<Retrieval<T>>, messages: seq<Message>, lines: seq<Line<T>>, counters: seq<Counter>)

  const U8: nat := 0x100
  const U32: nat := 0x1_0000_0000

  predicate CanEnd<T>(p: Parser<T>) {
    if p.mode == EndState then p.fsm in {End, Error} else p.keys == []
  }

  /**
   * How a round, or a whole call, ends. What is left after a failure is not known if an unexpected
   * text was found: the count of unread bytes has then been lowered and the position has not moved as far.
   */
  datatype Outcome<T> =
    | Go(p: Parser<T>, rest: string)      // one round done; of a call: everything received
    | Need(p: Parser<T>, rest: string)    // incomplete
    | Fail(code: Code, p: Parser<T>, left: Option<string>)
    | Crash                               // an assertion fails, or a result is missing
    | Spin                                // the loop goes round without getting anywhere

  function Last<X>(s: seq<X>): X
    requires s != []
  {
    s[|s| - 1]
  }

  function SetLast<X>(s: seq<X>, x: X): seq<X>
    requires s != []
  {
    s[|s| - 1 := x]
  }

  /** processMessageResult: answers the oldest pending key. */
  function Answer<T>(p: Parser<T>, kind: Kind): Parser<T> {
    if p.keys == [] then p.(messages := p.messages + [Unasked])
    else p.(messages := p.messages + [Message(kind, p.keys[0])], keys := p.keys[1..])
  }

  // ---------------------------------------------------------------- start_state

  function AfterExpect<T>(p: Parser<T>, s: string, lit: string, q: Parser<T>): Outcome<T> {
    match Expect(s, lit)
    case Got(_, rest) => Go(q, rest)
    case Short => Need(p, s)
    case Bad => Fail(Programming, p, None)
  }

  function ErrorLine<T>(p: Parser<T>, s: string, code: Code): Outcome<T> {
    match Until(s, '\n')
    case Got(_, rest) => Fail(code, p.(fsm := Error), Some(rest))
    case _ => Need(p, s)
  }

  function StartRound(p: Parser<string>, s: string): Outcome<string> {
    if s == "" then Need(p, s)
    else match s[0]
    case 'V' =>
      if |s| < 2 then Need(p, s)
      else if s[1] == 'A' then
        AfterExpect(p, s, "VALUE ",
                    p.(fsm := GetStart, retrievals := p.retrievals + [Retrieval("", 0, 0, 0, 1, 0, "")]))
      else if s[1] == 'E' then
        AfterExpect(p, s, "VERSION ", p.(fsm := VerStart, lines := p.lines + [Line("", 0)]))
      else Spin
    case 'E' =>
      if |s| < 2 then Need(p, s)
      else if s[1] == 'R' then ErrorLine(p, s, Programming)
      else if s[1] == 'N' then AfterExpect(p, s, "END\r\n", p.(fsm := End))
      else if s[1] == 'X' then AfterExpect(p, s, "EXISTS\r\n", Answer(p, Exists))
      else Spin
    case 'O' => AfterExpect(p, s, "OK\r\n", Answer(p, Ok))
    case 'S' =>
      if |s| < 3 then Need(p, s)
      else if s[1] == 'T' then
        if s[2] == 'O' then AfterExpect(p, s, "STORED\r\n", Answer(p, Stored))
        else AfterExpect(p, s, "STAT ", p.(fsm := StatStart, lines := p.lines + [Line("", 0)]))
      else ErrorLine(p, s, ServerError)
    case 'D' => AfterExpect(p, s, "DELETED\r\n", Answer(p, Deleted))
    case 'N' =>
      if |s| < 5 then Need(p, s)
      else if s[4] == 'F' then AfterExpect(p, s, "NOT_FOUND\r\n", Answer(p, NotFound))
      else if s[4] == 'S' then AfterExpect(p, s, "NOT_STORED\r\n", Answer(p, NotStored))
      else Spin
    case 'T' => AfterExpect(p, s, "TOUCHED\r\n", Answer(p, Touched))
    case 'C' => ErrorLine(p, s, Programming)
    case c =>
      if Digit(c) then Go(p.(fsm := IncrDecrStart, counters := p.counters + [Counter(0, "")]), s)
      else Fail(Programming, p, Some(s))
  }

  // ---------------------------------------------------------------- the other states

  function WithLast(p: Parser<string>, r: Retrieval<string>, fsm: Fsm): Parser<string>
    requires p.retrievals != []
  {
    p.(retrievals := SetLast(p.retrievals, r), fsm := fsm)
  }

  function KeyRound(p: Parser<string>, s: string): Outcome<string>
    requires p.retrievals != []
  {
    var r := Last(p.retrievals);
    match Until(s, ' ')
    case Got(key, rest) => Go(WithLast(p, r.(key := key, keyLen := |key| % U8), GetKey), rest)
    case _ => Need(WithLast(p, r.(key := "", keyLen := 0), p.fsm), s)
  }

  function FlagRound(p: Parser<string>, s: string): Outcome<string>
    requires p.retrievals != []
  {
    var r := Last(p.retrievals);
    if r.key == "" then Crash
    else match Unsigned(s)
    case Got(flags, rest) => Go(WithLast(p, r.(flags := flags % U32), GetFlag), rest)
    case Short => Need(p, s)
    case Bad => Fail(Programming, p, Some(s))
  }

  function BytesRound(p: Parser<string>, s: string): Outcome<string>
    requires p.retrievals != []
  {
    var r := Last(p.retrievals);
    if (r.bytes + 1) % U32 < r.bytesRemain then Crash
    else match Unsigned(s)
    case Got(n, rest) =>
      var bytes := n % U32;
      Go(WithLast(p, r.(bytes := bytes, bytesRemain := (bytes + 1) % U32), GetBytesCas), rest)
    case Short => Need(p, s)
    case Bad => Fail(Programming, p, Some(s))
  }

  function CasRound(p: Parser<string>, s: string): Outcome<string>
    requires p.retrievals != []
  {
    var r := Last(p.retrievals);
    if s == "" then Need(p, s)
    else if s[0] == '\n' then Go(WithLast(p, r.(cas := 0), GetValueRemaining), s)
    else match Unsigned(s)
    case Got(cas, rest) => Go(WithLast(p, r.(cas := cas), GetValueRemaining), rest)
    case Short => Need(WithLast(p, r.(cas := 0), p.fsm), s)
    case Bad => Fail(Programming, WithLast(p, r.(cas := 0), p.fsm), Some(s))
  }

  /** The data have been read: the line end after them. */
  function TrailerRound(p: Parser<string>, s: string): Outcome<string> {
    if |s| < 2 then Need(p, s) else Go(p.(fsm := Start), s[2..])
  }

  /** The line end before the data has been read. */
  function DataRound(p: Parser<string>, s: string): Outcome<string>
    requires p.retrievals != []
  {
    var r := Last(p.retrievals);
    if r.bytesRemain == r.bytes then
      if |s| < r.bytes then Need(WithLast(p, r.(data := ""), p.fsm), s)
      else TrailerRound(WithLast(p, r.(data := s[..r.bytes], bytesRemain := 0), p.fsm), s[r.bytes..])
    else if r.bytesRemain == 0 then TrailerRound(p, s)
    else Spin
  }

  function ValueRound(p: Parser<string>, s: string): Outcome<string>
    requires p.retrievals != []
  {
    var r := Last(p.retrievals);
    if r.bytesRemain == (r.bytes + 1) % U32 then
      if s == "" then Need(p, s)
      else DataRound(WithLast(p, r.(bytesRemain := (r.bytesRemain + U32 - 1) % U32), p.fsm), s[1..])
    else DataRound(p, s)
  }

  function LineRound(p: Parser<string>, s: string, fsm: Fsm): Outcome<string>
    requires p.lines != []
  {
    match Until(s, '\n')
    case Got(text, rest) => Go(p.(lines := SetLast(p.lines, Line(text, |text|)), fsm := fsm), rest)
    case _ => Need(p.(lines := SetLast(p.lines, Line("", 0))), s)
  }

  function IncrRound(p: Parser<string>, s: string): Outcome<string>
    requires p.counters != []
  {
    var c := Last(p.counters);
    match Unsigned(s)
    case Got(n, rest) =>
      if p.keys == [] then Crash
      else Go(p.(counters := SetLast(p.counters, Counter(n, p.keys[0])), fsm := IncrDecrRemaining), rest)
    case Short => Need(p.(counters := SetLast(p.counters, c.(value := 0))), s)
    case Bad => Fail(Programming, p.(counters := SetLast(p.counters, c.(value := 0))), Some(s))
  }

  function IncrRestRound(p: Parser<string>, s: string): Outcome<string> {
    match Until(s, '\n')
    case Got(_, rest) => if p.keys == [] then Crash else Go(p.(keys := p.keys[1..], fsm := Start), rest)
    case _ => Need(p, s)
  }

  /** One round of the loop of process_packets. */
  function Round(p: Parser<string>, s: string): Outcome<string> {
    match p.fsm
    case Start => StartRound(p, s)
    case GetStart => if p.retrievals == [] then Crash else KeyRound(p, s)
    case GetKey => if p.retrievals == [] then Crash else FlagRound(p, s)
    case GetFlag => if p.retrievals == [] then Crash else BytesRound(p, s)
    case GetBytesCas => if p.retrievals == [] then Crash else CasRound(p, s)
    case GetValueRemaining => if p.retrievals == [] then Crash else ValueRound(p, s)
    case VerStart => if p.lines == [] then Crash else LineRound(p, s, End)
    case StatStart => if p.lines == [] then Crash else LineRound(p, s, Start)
    case IncrDecrStart => if p.counters == [] then Crash else IncrRound(p, s)
    case IncrDecrRemaining => IncrRestRound(p, s)
    case End => Spin
    case Error => Spin
  }

  /** Rounds that read nothing go to a state that does. */
  function Rank(fsm: Fsm): nat {
    if fsm in {Start, GetBytesCas} then 1 else 0
  }

  ghost predicate Progresses(p: Parser<string>, s: string, r: Outcome<string>) {
    r.Go? ==> |r.rest| < |s| || (|r.rest| == |s| && Rank(r.p.fsm) < Rank(p.fsm))
  }

  lemma StartReads(p: Parser<string>, s: string)
    requires p.fsm == Start
    ensures Progresses(p, s, StartRound(p, s))
  {
    hide Expect, Until, Answer;
  }

  lemma ValueReads(p: Parser<string>, s: string)
    requires p.retrievals != []
    ensures Progresses(p, s, ValueRound(p, s))
  {}

  lemma RoundReads(p: Parser<string>, s: string)
    ensures Progresses(p, s, Round(p, s))
  {
    hide Until, Unsigned, StartRound, ValueRound;
    match p.fsm
    case Start => StartReads(p, s);
    case GetValueRemaining =>
      if p.retrievals != [] {
        ValueReads(p, s);
      }
    case _ =>
  }

  /** The loop: rounds until everything asked for is there, or a round cannot be done. */
  function Run(p: Parser<string>, s: string): Outcome<string>
    decreases |s|, Rank(p.fsm)
  {
    if CanEnd(p) then Go(p, s)
    else
      var r := Round(p, s);
      if r.Go? then
        RoundReads(p, s);
        Run(r.p, r.rest)
      else r
  }

  /** process_packets: a call on the unread stream. */
  function Process(p: Parser<string>, s: string): Outcome<string> {
    Run(if p.fsm in {End, Error} then p.(fsm := Start) else p, s)
  }

  // ---------------------------------------------------------------- cutting the stream

  /**
   * The call returned between a value of 2^32 - 1 bytes and the line end after it. The 32-bit count
   * of what remains then reads the same as before the value.
   */
  ghost predicate Torn(p: Parser<string>) {
    && p.fsm == GetValueRemaining && p.retrievals != []
    && Last(p.retrievals).bytes == U32 - 1 && Last(p.retrievals).bytesRemain == 0 && Last(p.retrievals).data != ""
  }

  /** The outcome of a call that would not read `b` if it came, too. */
  function Later(r: Outcome<string>, b: string): Outcome<string> {
    match r
    case Go(q, rest) => Go(q, rest + b)
    case Fail(code, q, Some(rest)) => Fail(code, q, Some(rest + b))
    case _ => r
  }

  /** `more` is what a round finds with `b` added to the stream, when it found `r` without. */
  ghost predicate Continues(r: Outcome<string>, more: Outcome<string>, b: string) {
    match r
    case Need(q, rest) => more == Round(q, rest + b)
    case _ => more == Later(r, b)
  }

  /** A round that did not run short finds the same; one that did has read nothing. */
  ghost predicate Extends(r: Outcome<string>, more: Outcome<string>, p: Parser<string>, a: string, b: string) {
    r == Need(p, a) || (!r.Need? && more == Later(r, b))
  }

  lemma ExpectContinues(p: Parser<string>, a: string, b: string, lit: string, q: Parser<string>)
    ensures Extends(AfterExpect(p, a, lit, q), AfterExpect(p, a + b, lit, q), p, a, b)
  {
    ExpectStable(a, b, lit);
  }

  lemma ErrorContinues(p: Parser<string>, a: string, b: string, code: Code)
    ensures Extends(ErrorLine(p, a, code), ErrorLine(p, a + b, code), p, a, b)
  {
    UntilStable(a, b, '\n');
  }

  lemma StartExtends(p: Parser<string>, a: string, b: string)
    ensures Extends(StartRound(p, a), StartRound(p, a + b), p, a, b)
  {
    hide AfterExpect, ErrorLine, Extends, Answer;
    assert Extends(Spin, Spin, p, a, b) && forall r :: Extends(Need(p, a), r, p, a, b) by {
      SpinOrNeed(p, a, b);
    }
    if a != "" {
      assert (a + b)[0] == a[0];
      assert |a| >= 2 ==> (a + b)[1] == a[1];
      assert |a| >= 3 ==> (a + b)[2] == a[2];
      assert |a| >= 5 ==> (a + b)[4] == a[4];
      match a[0]
      case 'V' =>
        var value := Retrieval("", 0, 0, 0, 1, 0, "");
        ExpectContinues(p, a, b, "VALUE ", p.(fsm := GetStart, retrievals := p.retrievals + [value]));
        ExpectContinues(p, a, b, "VERSION ", p.(fsm := VerStart, lines := p.lines + [Line("", 0)]));
      case 'E' =>
        ErrorContinues(p, a, b, Programming);
        ExpectContinues(p, a, b, "END\r\n", p.(fsm := End));
        ExpectContinues(p, a, b, "EXISTS\r\n", Answer(p, Exists));
      case 'O' => ExpectContinues(p, a, b, "OK\r\n", Answer(p, Ok));
      case 'S' =>
        ErrorContinues(p, a, b, ServerError);
        ExpectContinues(p, a, b, "STORED\r\n", Answer(p, Stored));
        ExpectContinues(p, a, b, "STAT ", p.(fsm := StatStart, lines := p.lines + [Line("", 0)]));
      case 'D' => ExpectContinues(p, a, b, "DELETED\r\n", Answer(p, Deleted));
      case 'N' =>
        ExpectContinues(p, a, b, "NOT_FOUND\r\n", Answer(p, NotFound));
        ExpectContinues(p, a, b, "NOT_STORED\r\n", Answer(p, NotStored));
      case 'T' => ExpectContinues(p, a, b, "TOUCHED\r\n", Answer(p, Touched));
      case 'C' => ErrorContinues(p, a, b, Programming);
      case _ => NoWord(p, a, b);
    }
  }

  lemma SpinOrNeed(p: Parser<string>, a: string, b: string)
    ensures Extends(Spin, Spin, p, a, b) && forall r :: Extends(Need(p, a), r, p, a, b)
  {}

  lemma NoWord(p: Parser<string>, a: string, b: string)
    ensures var q := p.(fsm := IncrDecrStart, counters := p.counters + [Counter(0, "")]);
      Extends(Go(q, a), Go(q, a + b), p, a, b)
    ensures Extends(Fail(Programming, p, Some(a)), Fail(Programming, p, Some(a + b)), p, a, b)
  {}

  lemma StartContinues(p: Parser<string>, a: string, b: string)
    requires p.fsm == Start
    ensures Continues(StartRound(p, a), StartRound(p, a + b), b)
  {
    hide StartRound;
    StartExtends(p, a, b);
  }

  lemma LastTwice<X>(s: seq<X>, x: X, y: X)
    requires s != []
    ensures Last(SetLast(s, x)) == x && SetLast(SetLast(s, x), y) == SetLast(s, y) && SetLast(s, Last(s)) == s
  {}

  lemma KeyContinues(p: Parser<string>, a: string, b: string)
    requires p.fsm == GetStart && p.retrievals != []
    ensures Continues(Round(p, a), Round(p, a + b), b)
  {
    UntilStable(a, b, ' ');
    hide Until;
    var r := Last(p.retrievals);
    if Until(a, ' ').Short? {
      var cleared := r.(key := "", keyLen := 0);
      match Until(a + b, ' ')
      case Got(key, _) => LastTwice(p.retrievals, cleared, r.(key := key, keyLen := |key| % U8));
      case _ => LastTwice(p.retrievals, cleared, cleared);
    }
  }

  lemma NumberContinues(p: Parser<string>, a: string, b: string)
    requires p.fsm in {GetKey, GetFlag} && p.retrievals != []
    ensures Continues(Round(p, a), Round(p, a + b), b)
  {
    UnsignedStable(a, b);
    hide Unsigned;
  }

  lemma CasContinues(p: Parser<string>, a: string, b: string)
    requires p.fsm == GetBytesCas && p.retrievals != []
    ensures Continues(Round(p, a), Round(p, a + b), b)
  {
    UnsignedStable(a, b);
    hide Unsigned;
    var r := Last(p.retrievals);
    if a != "" {
      assert (a + b)[0] == a[0];
      if a[0] != '\n' && Unsigned(a).Short? {
        match Unsigned(a + b)
        case Got(cas, _) => LastTwice(p.retrievals, r.(cas := 0), r.(cas := cas));
        case _ => LastTwice(p.retrievals, r.(cas := 0), r.(cas := 0));
      }
    }
  }

  lemma LineContinues(p: Parser<string>, a: string, b: string)
    requires p.fsm in {VerStart, StatStart} && p.lines != []
    ensures Continues(Round(p, a), Round(p, a + b), b)
  {
    UntilStable(a, b, '\n');
    hide Until;
    if Until(a, '\n').Short? {
      match Until(a + b, '\n')
      case Got(text, _) => LastTwice(p.lines, Line("", 0), Line(text, |text|));
      case _ => LastTwice(p.lines, Line("", 0), Line("", 0));
    }
  }

  lemma IncrContinues(p: Parser<string>, a: string, b: string)
    requires p.fsm == IncrDecrStart && p.counters != []
    ensures Continues(Round(p, a), Round(p, a + b), b)
  {
    UnsignedStable(a, b);
    hide Unsigned;
    var c := Last(p.counters);
    if Unsigned(a).Short? {
      match Unsigned(a + b)
      case Got(n, _) =>
        if p.keys != [] {
          LastTwice(p.counters, c.(value := 0), Counter(n, p.keys[0]));
        }
      case _ => LastTwice(p.counters, c.(value := 0), c.(value := 0));
    }
  }

  lemma IncrRestContinues(p: Parser<string>, a: string, b: string)
    requires p.fsm == IncrDecrRemaining
    ensures Continues(Round(p, a), Round(p, a + b), b)
  {
    UntilStable(a, b, '\n');
    hide Until;
  }

  // ---------------------------------------------------------------- values, in three parts

  /** Called again between the data and the line end after them. */
  lemma TrailerAgain(p: Parser<string>, s: string)
    requires p.retrievals != [] && Last(p.retrievals).bytesRemain == 0
    requires var r := Last(p.retrievals); r.bytes < U32 - 1 && (r.bytes == 0 ==> r.data == "")
    ensures ValueRound(p, s) == TrailerRound(p, s)
  {
    var r := Last(p.retrievals);
    assert (r.bytes + 1) % U32 == r.bytes + 1;
    LastTwice(p.retrievals, r, r);
    assert r.bytes == 0 ==> s[..r.bytes] == r.data && s[r.bytes..] == s;
  }

  /** Called again before the data are all there. */
  lemma DataAgain(p: Parser<string>, s: string)
    requires p.retrievals != [] && Last(p.retrievals).bytesRemain == Last(p.retrievals).bytes < U32
    ensures var r := Last(p.retrievals);
      ValueRound(WithLast(p, r.(data := ""), p.fsm), s) == DataRound(p, s)
  {
    var r := Last(p.retrievals);
    var n := r.bytes;
    assert (n + 1) % U32 != n;
    LastTwice(p.retrievals, r.(data := ""), r.(data := ""));
    if |s| >= n {
      LastTwice(p.retrievals, r.(data := ""), r.(data := s[..n], bytesRemain := 0));
    }
  }

  lemma TrailerContinues(p: Parser<string>, a: string, b: string)
    requires p.fsm == GetValueRemaining && p.retrievals != [] && Last(p.retrievals).bytesRemain == 0
    requires var r := Last(p.retrievals);
      r.bytes < U32 && (r.bytes == 0 ==> r.data == "") && (r.bytes == U32 - 1 ==> r.data != "")
    requires |a| < 2 ==> !Torn(p)
    ensures Continues(TrailerRound(p, a), TrailerRound(p, a + b), b)
  {
    if |a| >= 2 {
      assert (a + b)[2..] == a[2..] + b;
    } else {
      TrailerAgain(p, a + b);
    }
  }

  lemma DataContinues(p: Parser<string>, a: string, b: string)
    requires p.fsm == GetValueRemaining && p.retrievals != []
    requires Last(p.retrievals).bytesRemain == Last(p.retrievals).bytes < U32
    requires !(DataRound(p, a).Need? && Torn(DataRound(p, a).p))
    ensures Continues(DataRound(p, a), DataRound(p, a + b), b)
  {
    var r := Last(p.retrievals);
    var n := r.bytes;
    if |a| < n {
      DataAgain(p, a + b);
    } else {
      assert (a + b)[..n] == a[..n] && (a + b)[n..] == a[n..] + b;
      var got := r.(data := a[..n], bytesRemain := 0);
      LastTwice(p.retrievals, got, got);
      TrailerContinues(WithLast(p, got, p.fsm), a[n..], b);
    }
  }

  lemma IsValueRound(p: Parser<string>, s: string)
    requires p.fsm == GetValueRemaining && p.retrievals != []
    ensures Round(p, s) == ValueRound(p, s)
  {}

  lemma ValueContinues(p: Parser<string>, a: string, b: string)
    requires p.fsm == GetValueRemaining && Sane(p) && p.retrievals != []
    requires !(ValueRound(p, a).Need? && Torn(ValueRound(p, a).p))
    ensures Continues(ValueRound(p, a), ValueRound(p, a + b), b)
  {
    var r := Last(p.retrievals);
    hide Round, DataRound, TrailerRound, Torn;
    if r.bytesRemain == (r.bytes + 1) % U32 {
      assert (r.bytesRemain + U32 - 1) % U32 == r.bytes;
      if a == "" {
        assert a + b == b;
        IsValueRound(p, b);
      } else {
        assert (a + b)[1..] == a[1..] + b;
        var skipped := r.(bytesRemain := r.bytes);
        LastTwice(p.retrievals, skipped, skipped);
        DataContinues(WithLast(p, skipped, p.fsm), a[1..], b);
      }
    } else {
      RestContinues(p, a, b);
    }
  }

  lemma RestContinues(p: Parser<string>, a: string, b: string)
    requires p.fsm == GetValueRemaining && Sane(p) && p.retrievals != []
    requires var r := Last(p.retrievals); r.bytesRemain != (r.bytes + 1) % U32
    requires !(DataRound(p, a).Need? && Torn(DataRound(p, a).p))
    ensures Continues(DataRound(p, a), DataRound(p, a + b), b)
  {
    var r := Last(p.retrievals);
    if r.bytesRemain == r.bytes {
      DataContinues(p, a, b);
    } else {
      TrailerContinues(p, a, b);
    }
  }

  // ---------------------------------------------------------------- what the parser keeps

  /** How far the current value is read, and what of it is there. */
  ghost predicate Sane(p: Parser<string>) {
    p.retrievals != [] ==>
      var r := Last(p.retrievals);
      && (p.fsm in {GetStart, GetKey, GetFlag} ==> r.bytes == 0 && r.bytesRemain == 1 && r.data == "")
      && (p.fsm == GetBytesCas ==> r.bytes < U32 && r.bytesRemain == (r.bytes + 1) % U32 && r.data == "")
      && (p.fsm == GetValueRemaining ==>
            r.bytes < U32 && r.bytesRemain in {(r.bytes + 1) % U32, r.bytes, 0} && (r.bytes == 0 ==> r.data == ""))
  }

  lemma StartSane(p: Parser<string>, s: string)
    requires p.fsm == Start
    ensures var r := StartRound(p, s); r.Go? || r.Need? ==> Sane(r.p)
  {
    hide Expect, Until;
  }

  lemma ValueSane(p: Parser<string>, s: string)
    requires p.fsm == GetValueRemaining && Sane(p) && p.retrievals != []
    ensures var r := ValueRound(p, s); r.Go? || r.Need? ==> Sane(r.p)
  {}

  lemma RoundSane(p: Parser<string>, s: string)
    requires Sane(p)
    ensures var r := Round(p, s); r.Go? || r.Need? ==> Sane(r.p)
  {
    hide Until, Unsigned, StartRound, ValueRound;
    match p.fsm
    case Start => StartSane(p, s);
    case GetValueRemaining =>
      if p.retrievals != [] {
        ValueSane(p, s);
      }
    case _ =>
  }

  // ---------------------------------------------------------------- whole calls

  lemma RoundContinues(p: Parser<string>, a: string, b: string)
    requires Sane(p) && !(Round(p, a).Need? && Torn(Round(p, a).p))
    ensures Continues(Round(p, a), Round(p, a + b), b)
  {
    match p.fsm
    case Start => StartContinues(p, a, b);
    case GetStart => if p.retrievals != [] { KeyContinues(p, a, b); }
    case GetKey => if p.retrievals != [] { NumberContinues(p, a, b); }
    case GetFlag => if p.retrievals != [] { NumberContinues(p, a, b); }
    case GetBytesCas => if p.retrievals != [] { CasContinues(p, a, b); }
    case GetValueRemaining => if p.retrievals != [] { ValueContinues(p, a, b); }
    case VerStart => if p.lines != [] { LineContinues(p, a, b); }
    case StatStart => if p.lines != [] { LineContinues(p, a, b); }
    case IncrDecrStart => if p.counters != [] { IncrContinues(p, a, b); }
    case IncrDecrRemaining => IncrRestContinues(p, a, b);
    case _ =>
  }

  /** A round that runs short stays in its state. */
  lemma NeedStays(p: Parser<string>, s: string)
    requires Round(p, s).Need?
    ensures var q := Round(p, s).p; q.fsm == p.fsm && q.keys == p.keys && q.mode == p.mode
    ensures p.fsm !in {End, Error}
  {
    hide Until, Unsigned, Expect, StartRound, ValueRound;
    match p.fsm
    case Start => StartNeeds(p, s);
    case GetValueRemaining => ValueNeeds(p, s);
    case _ =>
  }

  lemma StartNeeds(p: Parser<string>, s: string)
    ensures StartRound(p, s).Need? ==> StartRound(p, s) == Need(p, s)
  {
    hide Until, Expect, Answer;
  }

  lemma ValueNeeds(p: Parser<string>, s: string)
    requires p.retrievals != [] && ValueRound(p, s).Need?
    ensures var q := ValueRound(p, s).p; q.fsm == p.fsm && q.keys == p.keys && q.mode == p.mode
  {}

  lemma RunRound(p: Parser<string>, s: string)
    requires !CanEnd(p)
    ensures var r := Round(p, s); Run(p, s) == if r.Go? then Run(r.p, r.rest) else r
    ensures Progresses(p, s, Round(p, s))
  {
    RoundReads(p, s);
    hide Round;
  }

  /** A call that had to stop for lack of bytes is resumed; any other outcome is final. */
  lemma {:induction false} RunContinues(p: Parser<string>, a: string, b: string)
    requires Sane(p) && !(Run(p, a).Need? && Torn(Run(p, a).p))
    ensures match Run(p, a)
      case Need(q, rest) => Sane(q) && q.fsm !in {End, Error} && Run(p, a + b) == Run(q, rest + b)
      case r => Run(p, a + b) == Later(r, b)
    decreases |a|, Rank(p.fsm)
  {
    hide Round, Sane, Torn;
    if !CanEnd(p) {
      var r := Round(p, a);
      RunRound(p, a);
      RunRound(p, a + b);
      RoundContinues(p, a, b);
      RoundSane(p, a);
      hide Run;
      if r.Go? {
        RunContinues(r.p, r.rest, b);
      } else if r.Need? {
        NeedStays(p, a);
        RunRound(r.p, r.rest + b);
      }
    }
  }
}
