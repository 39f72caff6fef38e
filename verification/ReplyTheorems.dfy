/** What the reply parser promises about whole streams. */
module ReplyTheorems {
  import opened Stream
  import opened Reply
  import opened Wrappers

  // ---------------------------------------------------------------- received in pieces

  /** A piece is received: there is another call if the last one asked for more. */
  function FeedOne(r: Outcome<string>, piece: string): Outcome<string> {
    match r
    case Need(q, rest) => Process(q, rest + piece)
    case _ => Later(r, piece)
  }

  function Feed(p: Parser<string>, pieces: seq<string>): Outcome<string> {
    if pieces == [] then Need(p, "")
    else FeedOne(Feed(p, pieces[..|pieces| - 1]), pieces[|pieces| - 1])
  }

  /** No call has ended between a value of 2^32 - 1 bytes and its line end. */
  ghost predicate Whole(p: Parser<string>, pieces: seq<string>) {
    forall k :: 0 <= k < |pieces| ==> !(Feed(p, pieces[..k]).Need? && Torn(Feed(p, pieces[..k]).p))
  }

  /**
   * However a stream is cut into pieces, the parser ends in the same way: with the same results,
   * state, pending keys and unread rest, the same error, or asking for more.
   */
  lemma {:induction false} ChunkIndependence(p: Parser<string>, pieces: seq<string>)
    requires Sane(p) && pieces != [] && Whole(p, pieces)
    ensures Feed(p, pieces) == Process(p, Concat(pieces))
  {
    var front, piece := pieces[..|pieces| - 1], pieces[|pieces| - 1];
    hide Run, Sane, Torn;
    if front == [] {
      assert "" + piece == piece;
    } else {
      WholeFront(p, pieces);
      ChunkIndependence(p, front);
      assert pieces[..|front|] == front;
      RunContinues(Entered(p), Concat(front), piece);
    }
  }

  /** What comes after a failure is left unread. */
  lemma {:induction false} FedAfter(p: Parser<string>, pieces: seq<string>, n: nat)
    requires n <= |pieces| && Feed(p, pieces[..n]).Fail?
    ensures Feed(p, pieces) == Later(Feed(p, pieces[..n]), Concat(pieces[n..]))
    decreases |pieces|
  {
    if n == |pieces| {
      assert pieces[..n] == pieces && pieces[n..] == [];
      LaterNothing(Feed(p, pieces));
    } else {
      var front, piece := pieces[..|pieces| - 1], pieces[|pieces| - 1];
      assert front[..n] == pieces[..n];
      FedAfter(p, front, n);
      assert pieces[n..] == front[n..] + [piece];
      LaterTwice(Feed(p, pieces[..n]), Concat(front[n..]), piece);
      assert Feed(p, front).Fail?;
    }
  }

  lemma LaterNothing(r: Outcome<string>)
    ensures Later(r, "") == r
  {
    if r.Fail? && r.left.Some? {
      assert r.left.value + "" == r.left.value;
    }
  }

  lemma LaterTwice(r: Outcome<string>, a: string, b: string)
    ensures Later(Later(r, a), b) == Later(r, a + b)
  {
    if r.Fail? && r.left.Some? {
      assert r.left.value + a + b == r.left.value + (a + b);
    }
    if r.Go? {
      assert r.rest + a + b == r.rest + (a + b);
    }
  }

  /** The state a call begins in. */
  function Entered(p: Parser<string>): (q: Parser<string>)
    ensures Sane(p) ==> Sane(q)
    ensures forall s :: Process(p, s) == Run(q, s)
  {
    if p.fsm in {End, Error} then p.(fsm := Start) else p
  }

  lemma WholeFront(p: Parser<string>, pieces: seq<string>)
    requires pieces != [] && Whole(p, pieces)
    ensures Whole(p, pieces[..|pieces| - 1])
  {
    var front := pieces[..|pieces| - 1];
    forall k | 0 <= k < |front|
      ensures front[..k] == pieces[..k]
    {
    }
  }

  /** A round can only tear after reading 2^32 - 1 bytes. */
  lemma TearingRound(p: Parser<string>, s: string)
    requires Sane(p) && !Torn(p)
    ensures var r := Round(p, s);
      && (r.Need? && Torn(r.p) ==> |s| >= U32 - 1) && (r.Go? ==> !Torn(r.p) && |r.rest| <= |s|)
      && (r.Need? ==> |r.rest| <= |s|)
  {
    RoundReads(p, s);
    if p.fsm == GetValueRemaining && p.retrievals != [] {
      TearingValue(p, s);
    } else if Round(p, s).Need? {
      NeedStays(p, s);
      NeedRest(p, s);
    } else if Round(p, s).Go? {
      FreshValue(p, s);
    }
    hide Round, Sane;
  }

  lemma TearingData(p: Parser<string>, s: string)
    requires p.retrievals != [] && p.fsm == GetValueRemaining
    requires Last(p.retrievals).bytesRemain == Last(p.retrievals).bytes < U32
    ensures var r := DataRound(p, s);
      && (r.Need? && Torn(r.p) ==> |s| >= U32 - 1) && (r.Go? ==> r.p.fsm == Start)
      && (r.Need? || r.Go? ==> |r.rest| <= |s|)
  {
    var r := Last(p.retrievals);
    LastTwice(p.retrievals, r.(data := ""), r);
    if |s| >= r.bytes {
      LastTwice(p.retrievals, r.(data := s[..r.bytes], bytesRemain := 0), r);
    }
  }

  lemma TearingValue(p: Parser<string>, s: string)
    requires Sane(p) && !Torn(p) && p.fsm == GetValueRemaining && p.retrievals != []
    ensures var r := Round(p, s);
      && (r.Need? && Torn(r.p) ==> |s| >= U32 - 1) && (r.Go? ==> r.p.fsm == Start)
      && (r.Need? || r.Go? ==> |r.rest| <= |s|)
  {
    var r := Last(p.retrievals);
    IsValueRound(p, s);
    if r.bytesRemain == (r.bytes + 1) % U32 {
      if s != "" {
        assert (r.bytesRemain + U32 - 1) % U32 == r.bytes;
        var skipped := r.(bytesRemain := r.bytes);
        LastTwice(p.retrievals, skipped, skipped);
        TearingData(WithLast(p, skipped, p.fsm), s[1..]);
        hide Round, DataRound;
      }
    } else if r.bytesRemain == r.bytes {
      TearingData(p, s);
    }
  }

  lemma NeedRest(p: Parser<string>, s: string)
    requires Round(p, s).Need? && p.fsm != GetValueRemaining
    ensures Round(p, s).rest == s
  {
    hide Until, Unsigned, Expect;
  }

  /** A value begins without data. */
  lemma FreshValue(p: Parser<string>, s: string)
    requires Sane(p) && p.fsm != GetValueRemaining && Round(p, s).Go?
    ensures !Torn(Round(p, s).p)
  {
    RoundSane(p, s);
    if p.fsm == GetBytesCas && p.retrievals != [] {
      hide Unsigned;
      LastTwice(p.retrievals, Last(p.retrievals).(cas := 0), Last(p.retrievals));
    } else {
      NoValueYet(p, s);
    }
  }

  lemma NoValueYet(p: Parser<string>, s: string)
    requires p.fsm !in {GetBytesCas, GetValueRemaining} && Round(p, s).Go?
    ensures Round(p, s).p.fsm != GetValueRemaining
  {
    hide Until, Unsigned, Expect;
  }

  lemma {:induction false} TearingRun(p: Parser<string>, s: string)
    requires Sane(p) && !Torn(p) && |s| < U32 - 1
    ensures Run(p, s).Need? ==> !Torn(Run(p, s).p) && |Run(p, s).rest| <= |s|
    decreases |s|, Rank(p.fsm)
  {
    if !CanEnd(p) {
      RunRound(p, s);
      TearingRound(p, s);
      RoundSane(p, s);
      hide Round, Run, Sane, Torn;
      var r := Round(p, s);
      if r.Go? {
        TearingRun(r.p, r.rest);
      }
    }
  }

  /** Streams of less than 2^32 - 1 bytes, whatever is in them, may be cut anywhere. */
  lemma {:induction false} ShortStream(p: Parser<string>, pieces: seq<string>)
    requires Sane(p) && !Torn(p) && pieces != [] && |Concat(pieces)| < 0xFFFF_FFFF
    ensures Feed(p, pieces) == Process(p, Concat(pieces))
  {
    ShortWhole(p, pieces, |pieces|);
    assert pieces[..|pieces|] == pieces;
    ChunkIndependence(p, pieces);
  }

  lemma {:induction false} ShortWhole(p: Parser<string>, pieces: seq<string>, k: nat)
    requires Sane(p) && !Torn(p) && |Concat(pieces)| < U32 - 1 && k <= |pieces|
    ensures Whole(p, pieces[..k])
  {
    hide Feed, Torn, Sane, Concat;
    if k > 0 {
      ShortWhole(p, pieces, k - 1);
      ShortPiece(p, pieces, k - 1);
      forall j | 0 <= j < k
        ensures pieces[..k][..j] == pieces[..j] && (j < k - 1 ==> pieces[..k - 1][..j] == pieces[..j])
      {
      }
    }
  }

  lemma ShortPiece(p: Parser<string>, pieces: seq<string>, k: nat)
    requires Sane(p) && !Torn(p) && |Concat(pieces)| < U32 - 1 && k < |pieces| && Whole(p, pieces[..k])
    ensures !(Feed(p, pieces[..k]).Need? && Torn(Feed(p, pieces[..k]).p))
  {
    if k > 0 {
      hide Run, Feed, Whole, Sane, Torn;
      ChunkIndependence(p, pieces[..k]);
      ConcatPrefix(pieces, k);
      EnteredWhole(p);
      TearingRun(Entered(p), Concat(pieces[..k]));
    } else {
      assert pieces[..0] == [];
    }
  }

  lemma EnteredWhole(p: Parser<string>)
    requires !Torn(p)
    ensures !Torn(Entered(p))
  {}

  lemma {:induction false} ConcatPrefix(pieces: seq<string>, k: nat)
    requires k <= |pieces|
    ensures Concat(pieces[..k]) <= Concat(pieces)
  {
    if k < |pieces| {
      ConcatPrefix(pieces[..|pieces| - 1], k);
      assert pieces[..|pieces| - 1][..k] == pieces[..k];
    } else {
      assert pieces[..k] == pieces;
    }
  }

  /** Resumed between the value and its line end, the parser takes what follows for the value. */
  lemma TornResumed(q: Parser<string>, s: string)
    requires Torn(q) && s != ""
    ensures Round(q, s) != TrailerRound(q, s)
  {
    var r := Last(q.retrievals);
    var skipped := r.(bytesRemain := U32 - 1);
    assert (r.bytes + 1) % U32 == 0 && (r.bytesRemain + U32 - 1) % U32 == U32 - 1;
    LastTwice(q.retrievals, skipped, skipped.(data := ""));
    if |s| - 1 < U32 - 1 {
      assert Round(q, s).Need? && Last(Round(q, s).p.retrievals).bytesRemain == U32 - 1;
    } else {
      assert TrailerRound(q, s).rest == s[2..];
      assert Round(q, s).Go? ==> |Round(q, s).rest| < |s| - 2;
    }
  }

  lemma TornData(p: Parser<string>, a: string, b: string)
    requires p.retrievals != [] && Last(p.retrievals).bytesRemain == Last(p.retrievals).bytes == U32 - 1
    requires DataRound(p, a).Need? && Torn(DataRound(p, a).p)
    ensures DataRound(p, a + b) == TrailerRound(DataRound(p, a).p, DataRound(p, a).rest + b)
  {
    var n := U32 - 1;
    if |a| >= n {
      assert (a + b)[..n] == a[..n] && (a + b)[n..] == a[n..] + b;
    }
  }

  /** With all the bytes at hand it would have gone on with the line end. */
  lemma TornGoesOn(p: Parser<string>, a: string, b: string)
    requires Sane(p) && Round(p, a).Need? && Torn(Round(p, a).p) && Round(p, a).rest != a
    ensures Round(p, a + b) == TrailerRound(Round(p, a).p, Round(p, a).rest + b)
  {
    NeedStays(p, a);
    assert p.retrievals != [];
    IsValueRound(p, a);
    IsValueRound(p, a + b);
    assert Last(p.retrievals).bytes == U32 - 1;
    hide Round, TrailerRound, DataRound;
    var r := Last(p.retrievals);
    var skipped := r.(bytesRemain := U32 - 1);
    LastTwice(p.retrievals, skipped, skipped);
    if r.bytesRemain == 0 {
      assert (a + b)[1..] == a[1..] + b;
      TornData(WithLast(p, skipped, p.fsm), a[1..], b);
    } else {
      TornData(p, a, b);
    }
  }

  /**
   * A round that ran short goes on, with more bytes, as if it had had them at once: iff it has not
   * stopped between a value of 2^32 - 1 bytes and its line end, or has not read anything.
   */
  lemma ResumedIff(p: Parser<string>, a: string, b: string)
    requires Sane(p) && Round(p, a).Need? && b != ""
    ensures var q, rest := Round(p, a).p, Round(p, a).rest;
      Round(q, rest + b) == Round(p, a + b) <==> !Torn(q) || rest == a
  {
    var q, rest := Round(p, a).p, Round(p, a).rest;
    if !Torn(q) {
      RoundContinues(p, a, b);
    } else if rest != a {
      TornGoesOn(p, a, b);
      TornResumed(q, rest + b);
    } else {
      NothingRead(p, a);
    }
  }

  lemma NothingRead(p: Parser<string>, a: string)
    requires Sane(p) && Round(p, a).Need? && Torn(Round(p, a).p) && Round(p, a).rest == a
    ensures Round(p, a).p == p
  {
    NeedStays(p, a);
  }

  // ---------------------------------------------------------------- what well-formed replies mean

  /** An item of a get or gets reply. */
  datatype Item = Item(key: string, flags: nat, cas: Option<nat>, data: string)

  /** The length of a key has eight bits in a result; the library asks for keys of at most 250 bytes. */
  predicate Sendable(i: Item) {
    i.key != "" && ' ' !in i.key && |i.key| < 0x100 && |i.data| < 0x1_0000_0000
  }

  lemma UntilAt(text: string, c: char, rest: string)
    requires c !in text
    ensures Until(text + [c] + rest, c) == Got(text, rest)
  {
    FirstAt(text, c, rest, ForChar(c));
    var s := text + [c] + rest;
    assert s[..|text|] == text && s[|text| + 1..] == rest;
  }

  lemma UnsignedAt(n: nat, c: char, rest: string)
    requires !Digit(c)
    ensures Unsigned(Decimal(n) + [c] + rest) == Got(n % U64, rest)
  {
    FirstAt(Decimal(n), c, rest, ForNonDigit);
    NumberDecimal(n);
    var s := Decimal(n) + [c] + rest;
    assert s[..|Decimal(n)|] == Decimal(n) && s[|Decimal(n)| + 1..] == rest;
  }

  lemma ExpectAt(lit: string, rest: string)
    ensures Expect(lit + rest, lit) == Got((), rest)
  {}

  /** The line of an item from its flags on, without the line feed. */
  function Header(i: Item): string {
    Decimal(i.flags) + " " + Decimal(|i.data|) + (if i.cas.Some? then " " + Decimal(i.cas.value) else "") + "\r"
  }

  function Encode(i: Item): string {
    "VALUE " + i.key + " " + Header(i) + "\n" + i.data + "\r\n"
  }

  function EncodeAll(items: seq<Item>): string {
    if items == [] then "END\r\n" else Encode(items[0]) + EncodeAll(items[1..])
  }

  /** In a result the flags have 32 bits and the unique number has 64. */
  function Parsed(i: Item): Retrieval<string> {
    var cas := if i.cas.Some? then i.cas.value % 0x1_0000_0000_0000_0000 else 0;
    Retrieval(i.key, |i.key|, i.flags % 0x1_0000_0000, |i.data|, 0, cas, i.data)
  }

  function ParsedAll(items: seq<Item>): seq<Retrieval<string>> {
    if items == [] then [] else [Parsed(items[0])] + ParsedAll(items[1..])
  }

  /** The parser with one more, perhaps unfinished, result. */
  function With(p: Parser<string>, r: Retrieval<string>, fsm: Fsm): Parser<string> {
    p.(retrievals := p.retrievals + [r], fsm := fsm)
  }

  lemma WithWith(p: Parser<string>, r: Retrieval<string>, r': Retrieval<string>, fsm: Fsm, fsm': Fsm)
    ensures Last(With(p, r, fsm).retrievals) == r
    ensures WithLast(With(p, r, fsm), r', fsm') == With(p, r', fsm')
  {}

  const FRESH: Retrieval<string> := Retrieval("", 0, 0, 0, 1, 0, "")

  lemma ValueWord(p: Parser<string>, t: string)
    requires p.fsm == Start
    ensures Round(p, "VALUE " + t) == Go(With(p, FRESH, GetStart), t)
  {
    ExpectAt("VALUE ", t);
    hide Expect;
    assert ("VALUE " + t)[0] == 'V' && ("VALUE " + t)[1] == 'A';
  }

  lemma EndWord(p: Parser<string>, t: string)
    requires p.fsm == Start
    ensures Round(p, "END\r\n" + t) == Go(p.(fsm := End), t)
  {
    ExpectAt("END\r\n", t);
    hide Expect;
    assert ("END\r\n" + t)[0] == 'E' && ("END\r\n" + t)[1] == 'N';
  }

  lemma KeyWord(p: Parser<string>, r: Retrieval<string>, key: string, t: string)
    requires ' ' !in key
    ensures Round(With(p, r, GetStart), key + " " + t) == Go(With(p, r.(key := key, keyLen := |key| % U8), GetKey), t)
  {
    UntilAt(key, ' ', t);
    hide Until;
    WithWith(p, r, r.(key := key, keyLen := |key| % U8), GetStart, GetKey);
  }

  lemma FlagsRead(q: Parser<string>, s: string, n: nat, t: string)
    requires q.fsm == GetKey && q.retrievals != [] && Last(q.retrievals).key != ""
    requires Unsigned(s) == Got(n % U64, t)
    ensures Round(q, s) == Go(WithLast(q, Last(q.retrievals).(flags := n % U32), GetFlag), t)
  {
    hide Unsigned, WithLast;
    LowBits(n);
  }

  lemma LowBits(n: nat)
    ensures n % U64 % U32 == n % U32
  {
    var q, r := n / U64, n % U64;
    assert n == r + q * U32 * U32;
    Modulo(r, q * U32);
  }

  lemma {:induction false} Modulo(x: nat, k: nat)
    ensures (x + k * U32) % U32 == x % U32
  {
    if k > 0 {
      Modulo(x, k - 1);
      assert x + k * U32 == (x + (k - 1) * U32) + U32;
    }
  }

  lemma FlagsWord(p: Parser<string>, r: Retrieval<string>, n: nat, c: char, t: string)
    requires !Digit(c) && r.key != ""
    ensures Round(With(p, r, GetKey), Decimal(n) + [c] + t) == Go(With(p, r.(flags := n % U32), GetFlag), t)
  {
    hide Round, Unsigned, Decimal, WithLast;
    UnsignedAt(n, c, t);
    WithWith(p, r, r.(flags := n % U32), GetKey, GetFlag);
    FlagsRead(With(p, r, GetKey), Decimal(n) + [c] + t, n, t);
  }

  lemma BytesWord(p: Parser<string>, r: Retrieval<string>, n: nat, c: char, t: string)
    requires n < U32 && !Digit(c) && r.bytes == 0 && r.bytesRemain == 1
    ensures Round(With(p, r, GetFlag), Decimal(n) + [c] + t)
      == Go(With(p, r.(bytes := n, bytesRemain := (n + 1) % U32), GetBytesCas), t)
  {
    hide Unsigned, Decimal;
    UnsignedAt(n, c, t);
    assert n % U64 % U32 == n;
    WithWith(p, r, r.(bytes := n, bytesRemain := (n + 1) % U32), GetFlag, GetBytesCas);
  }

  lemma NoCas(p: Parser<string>, r: Retrieval<string>, t: string)
    ensures Round(With(p, r, GetBytesCas), "\n" + t) == Go(With(p, r.(cas := 0), GetValueRemaining), "\n" + t)
  {
    WithWith(p, r, r.(cas := 0), GetBytesCas, GetValueRemaining);
  }

  lemma CasWord(p: Parser<string>, r: Retrieval<string>, n: nat, t: string)
    ensures Round(With(p, r, GetBytesCas), Decimal(n) + "\r" + t)
      == Go(With(p, r.(cas := n % U64), GetValueRemaining), t)
  {
    UnsignedAt(n, '\r', t);
    var s := Decimal(n) + "\r" + t;
    assert s[0] == Decimal(n)[0] && Digit(Decimal(n)[0]);
    hide Unsigned, Decimal;
    WithWith(p, r, r.(cas := n % U64), GetBytesCas, GetValueRemaining);
  }

  lemma DataWord(p: Parser<string>, r: Retrieval<string>, data: string, t: string)
    requires r.bytes == |data| < U32 && r.bytesRemain == (|data| + 1) % U32
    ensures Round(With(p, r, GetValueRemaining), "\n" + (data + ("\r\n" + t)))
      == Go(With(p, r.(data := data, bytesRemain := 0), Start), t)
  {
    var n, s := |data|, data + ("\r\n" + t);
    assert (r.bytesRemain + U32 - 1) % U32 == n;
    var skipped := r.(bytesRemain := n);
    var q := With(p, skipped, GetValueRemaining);
    WithWith(p, r, skipped, GetValueRemaining, GetValueRemaining);
    assert ("\n" + s)[1..] == s;
    assert Round(With(p, r, GetValueRemaining), "\n" + s) == DataRound(q, s);
    WithWith(p, skipped, skipped.(data := data, bytesRemain := 0), GetValueRemaining, GetValueRemaining);
    assert s[..n] == data && s[n..] == "\r\n" + t && ("\r\n" + t)[2..] == t;
  }

  /** The parser is not content with the keys answered so far. */
  predicate Awaits<T>(p: Parser<T>) {
    p.mode == EndState || p.keys != []
  }

  lemma Parsing(p: Parser<string>, s: string)
    requires Awaits(p) && p.fsm !in {End, Error} && Round(p, s).Go?
    ensures Run(p, s) == Run(Round(p, s).p, Round(p, s).rest)
  {
    RunRound(p, s);
  }

  /** The rest of the item once its flags are read: with or without a unique number. */
  lemma TailParsed(p: Parser<string>, i: Item, r: Retrieval<string>, t: string)
    requires Awaits(p) && Sendable(i) && r.bytes == 0 && r.bytesRemain == 1
    ensures var s := "\n" + (i.data + ("\r\n" + t));
      var size := r.(bytes := |i.data|, bytesRemain := (|i.data| + 1) % U32);
      && (i.cas.None? ==>
            Run(With(p, r, GetFlag), Decimal(|i.data|) + "\r" + s)
            == Run(With(p, size.(cas := 0), GetValueRemaining), s))
      && (i.cas.Some? ==>
            Run(With(p, r, GetFlag), Decimal(|i.data|) + " " + (Decimal(i.cas.value) + "\r" + s))
            == Run(With(p, size.(cas := i.cas.value % U64), GetValueRemaining), s))
  {
    var n, s := |i.data|, "\n" + (i.data + ("\r\n" + t));
    var size := r.(bytes := n, bytesRemain := (n + 1) % U32);
    hide Run, Round, Decimal;
    if i.cas.None? {
      BytesWord(p, r, n, '\r', s);
      Parsing(With(p, r, GetFlag), Decimal(n) + "\r" + s);
      NoCas(p, size, i.data + ("\r\n" + t));
      Parsing(With(p, size, GetBytesCas), s);
    } else {
      var u := Decimal(i.cas.value) + "\r" + s;
      BytesWord(p, r, n, ' ', u);
      Parsing(With(p, r, GetFlag), Decimal(n) + " " + u);
      CasWord(p, size, i.cas.value, s);
      Parsing(With(p, size, GetBytesCas), u);
    }
  }

  /** From the flags on, as the tail lemma splits it. */
  function HeaderTail(i: Item, s: string): string {
    if i.cas.None? then Decimal(|i.data|) + "\r" + s
    else Decimal(|i.data|) + " " + (Decimal(i.cas.value) + "\r" + s)
  }

  lemma EncodeSplit(i: Item, t: string)
    ensures var s := "\n" + (i.data + ("\r\n" + t));
      Encode(i) + t == "VALUE " + (i.key + " " + (Decimal(i.flags) + " " + HeaderTail(i, s)))
  {
    hide Decimal;
    var s := "\n" + (i.data + ("\r\n" + t));
    assert Header(i) + s == Decimal(i.flags) + " " + HeaderTail(i, s);
    assert Encode(i) + t == "VALUE " + (i.key + " " + (Header(i) + s));
  }

  /** However long a key is, its length is kept modulo 256. */
  lemma KeyRead(p: Parser<string>, key: string, t: string)
    requires p.fsm == Start && Awaits(p) && ' ' !in key
    ensures Run(p, "VALUE " + (key + " " + t)) ==
      Run(p.(retrievals := p.retrievals + [Retrieval(key, |key| % 0x100, 0, 0, 1, 0, "")], fsm := GetKey), t)
  {
    hide Run, Round;
    ValueWord(p, key + " " + t);
    Parsing(p, "VALUE " + (key + " " + t));
    KeyWord(p, FRESH, key, t);
    Parsing(With(p, FRESH, GetStart), key + " " + t);
  }

  /** One item read: exactly it is added to the results. */
  lemma ItemParsed(p: Parser<string>, i: Item, t: string)
    requires p.fsm == Start && Awaits(p) && Sendable(i)
    ensures Run(p, Encode(i) + t) == Run(With(p, Parsed(i), Start), t)
  {
    EncodeSplit(i, t);
    hide Run, Round, Encode, Decimal;
    var s := "\n" + (i.data + ("\r\n" + t));
    var u := HeaderTail(i, s);
    var v := Decimal(i.flags) + " " + u;
    var keyed := FRESH.(key := i.key, keyLen := |i.key| % U8);
    var flagged := keyed.(flags := i.flags % U32);
    var sized := flagged.(bytes := |i.data|, bytesRemain := (|i.data| + 1) % U32,
                          cas := if i.cas.Some? then i.cas.value % U64 else 0);
    ValueWord(p, i.key + " " + v);
    Parsing(p, "VALUE " + (i.key + " " + v));
    KeyWord(p, FRESH, i.key, v);
    Parsing(With(p, FRESH, GetStart), i.key + " " + v);
    FlagsWord(p, keyed, i.flags, ' ', u);
    Parsing(With(p, keyed, GetKey), v);
    TailParsed(p, i, flagged, t);
    DataWord(p, sized, i.data, t);
    Parsing(With(p, sized, GetValueRemaining), s);
  }

  lemma EndParsed(p: Parser<string>, t: string)
    requires p.fsm == Start && p.mode == EndState
    ensures Run(p, "END\r\n" + t) == Go(p.(fsm := End), t)
  {
    EndWord(p, t);
    Parsing(p, "END\r\n" + t);
    hide Round;
  }

  /** A whole get reply: the results are the items sent, in order, and nothing after the end is touched. */
  lemma {:induction false} ItemsParsed(p: Parser<string>, items: seq<Item>, t: string)
    requires p.fsm == Start && p.mode == EndState && forall k :: 0 <= k < |items| ==> Sendable(items[k])
    ensures Run(p, EncodeAll(items) + t) == Go(p.(fsm := End, retrievals := p.retrievals + ParsedAll(items)), t)
    decreases |items|
  {
    hide Run, Encode, Parsed, Sendable;
    if items == [] {
      EndParsed(p, t);
      assert p.retrievals + [] == p.retrievals;
    } else {
      var rest := EncodeAll(items[1..]);
      assert EncodeAll(items) + t == Encode(items[0]) + (rest + t);
      ItemParsed(p, items[0], rest + t);
      ItemsParsed(With(p, Parsed(items[0]), Start), items[1..], t);
      assert p.retrievals + ParsedAll(items) == p.retrievals + [Parsed(items[0])] + ParsedAll(items[1..]);
    }
  }

  // ---------------------------------------------------------------- one-line replies

  function Word(kind: Kind): string {
    match kind
    case Exists => "EXISTS\r\n"
    case Ok => "OK\r\n"
    case Stored => "STORED\r\n"
    case NotStored => "NOT_STORED\r\n"
    case NotFound => "NOT_FOUND\r\n"
    case Deleted => "DELETED\r\n"
    case Touched => "TOUCHED\r\n"
  }

  function Words(kinds: seq<Kind>): string {
    if kinds == [] then "" else Word(kinds[0]) + Words(kinds[1..])
  }

  function Answers(kinds: seq<Kind>, keys: seq<string>): seq<Message>
    requires |kinds| == |keys|
  {
    if kinds == [] then [] else [Message(kinds[0], keys[0])] + Answers(kinds[1..], keys[1..])
  }

  lemma WordRead(p: Parser<string>, kind: Kind, t: string)
    requires p.fsm == Start
    ensures Round(p, Word(kind) + t) == Go(Answer(p, kind), t)
  {
    ExpectAt(Word(kind), t);
    hide Expect, Answer;
    var s := Word(kind) + t;
    assert s[0] == Word(kind)[0] && s[1] == Word(kind)[1] && s[2] == Word(kind)[2];
    if kind == NotStored || kind == NotFound {
      assert s[4] == Word(kind)[4];
    }
  }

  /** One reply read: the oldest pending key is answered. */
  lemma WordParsed(p: Parser<string>, kind: Kind, t: string)
    requires p.fsm == Start && p.mode == Counting && p.keys != []
    ensures Run(p, Word(kind) + t) == Run(Answer(p, kind), t)
  {
    WordRead(p, kind, t);
    RunRound(p, Word(kind) + t);
  }

  lemma AllAnswered(p: Parser<string>, t: string)
    requires p.mode == Counting && p.keys == []
    ensures Run(p, t) == Go(p.(keys := [], messages := p.messages + []), t)
  {
    assert p.messages + [] == p.messages;
  }

  /** As many replies as keys were sent: each key gets its reply, in the order of sending. */
  lemma {:induction false} MessagesParsed(p: Parser<string>, kinds: seq<Kind>, t: string)
    requires p.fsm == Start && p.mode == Counting && |kinds| == |p.keys|
    ensures Run(p, Words(kinds) + t) == Go(p.(keys := [], messages := p.messages + Answers(kinds, p.keys)), t)
    decreases |kinds|
  {
    hide Run, Word;
    if kinds == [] {
      assert "" + t == t;
      AllAnswered(p, t);
    } else {
      var u := Words(kinds[1..]) + t;
      assert Words(kinds) + t == Word(kinds[0]) + u;
      WordParsed(p, kinds[0], u);
      MessagesParsed(Answer(p, kinds[0]), kinds[1..], t);
      assert p.messages + Answers(kinds, p.keys)
        == p.messages + [Message(kinds[0], p.keys[0])] + Answers(kinds[1..], p.keys[1..]);
    }
  }
}
