/** Which cuts of a get reply the parser gets over, and which value it does not. */
module ReplyCuts {
  import opened Stream
  import opened Reply
  import opened ReplyTheorems
  import opened Wrappers

  // ---------------------------------------------------------------- part of a word

  /** A prefix of `a + y` ends in `a`, or goes on in `y`. */
  lemma PrefixOf(x: string, a: string, y: string)
    requires x <= a + y
    ensures if |x| < |a| then x <= a else x == a + x[|a|..] && x[|a|..] <= y
  {
    assert (a + y)[..|x|] == x;
    if |x| >= |a| {
      assert x[..|a|] == a && x[|a|..] == y[..|x| - |a|];
    } else {
      assert a[..|x|] == x;
    }
  }

  lemma PartOfLiteral(p: Parser<string>, x: string, lit: string)
    requires p.fsm == Start && lit in {"VALUE ", "END\r\n"} && x <= lit && |x| < |lit|
    ensures Round(p, x) == Need(p, x)
  {
    assert |x| >= 1 ==> x[0] == lit[0];
    assert |x| >= 2 ==> x[1] == lit[1];
  }

  lemma PartOfKey(q: Parser<string>, x: string, key: string)
    requires q.fsm == GetStart && q.retrievals != [] && x <= key && ' ' !in key
    ensures Round(q, x).Need? && Round(q, x).p.fsm == GetStart
  {
    FirstNone(x, ForChar(' '));
  }

  lemma PartOfNumber(x: string, n: nat)
    requires x <= Decimal(n)
    ensures Unsigned(x).Short?
  {
    hide Decimal;
    FirstNone(x, ForNonDigit);
  }

  lemma PartOfFlags(q: Parser<string>, x: string, n: nat)
    requires q.fsm == GetKey && q.retrievals != [] && Last(q.retrievals).key != "" && x <= Decimal(n)
    ensures Round(q, x) == Need(q, x)
  {
    hide Decimal, Unsigned;
    PartOfNumber(x, n);
  }

  lemma PartOfBytes(q: Parser<string>, x: string, n: nat)
    requires q.fsm == GetFlag && q.retrievals != [] && x <= Decimal(n)
    requires Last(q.retrievals).bytes == 0 && Last(q.retrievals).bytesRemain == 1
    ensures Round(q, x) == Need(q, x)
  {
    hide Decimal, Unsigned;
    PartOfNumber(x, n);
  }

  lemma PartOfCas(q: Parser<string>, x: string, n: nat)
    requires q.fsm == GetBytesCas && q.retrievals != [] && x <= Decimal(n)
    ensures Round(q, x).Need? && Round(q, x).p.fsm == GetBytesCas
  {
    hide Decimal, Unsigned;
    PartOfNumber(x, n);
    assert x != "" ==> Digit(x[0]) && x[0] != '\n';
  }

  /** Part of a value: torn iff the value is there, 2^32 - 1 bytes long, and the line end is not. */
  lemma PartOfValue(p: Parser<string>, r: Retrieval<string>, data: string, x: string)
    requires r.bytes == |data| < U32 && r.bytesRemain == (|data| + 1) % U32 && r.data == ""
    requires x <= "\n" + (data + "\r\n") && |x| < |data| + 3
    ensures var o := Round(With(p, r, GetValueRemaining), x);
      o.Need? && (Torn(o.p) <==> |data| == U32 - 1 && |x| > |data|) && (Torn(o.p) ==> |o.rest| < 2)
  {
    var n, q := |data|, With(p, r, GetValueRemaining);
    WithWith(p, r, r, GetValueRemaining, GetValueRemaining);
    IsValueRound(q, x);
    if x != "" {
      var skipped := r.(bytesRemain := n);
      var y := x[1..];
      assert (r.bytesRemain + U32 - 1) % U32 == n;
      WithWith(p, r, skipped, GetValueRemaining, GetValueRemaining);
      assert ValueRound(q, x) == DataRound(With(p, skipped, GetValueRemaining), y);
      hide Round, ValueRound;
      WithWith(p, skipped, skipped.(data := ""), GetValueRemaining, GetValueRemaining);
      if |y| >= n {
        WithWith(p, skipped, skipped.(data := y[..n], bytesRemain := 0), GetValueRemaining, GetValueRemaining);
      }
    }
  }

  // ---------------------------------------------------------------- part of an item

  /** On `x`, the first part of `n` bytes that end with a value's line end, the parser asks for more. */
  ghost predicate Stops(o: Outcome<string>, data: string, x: string, n: nat) {
    o.Need? && (Torn(o.p) <==> |data| == U32 - 1 && |x| + 2 >= n) && (Torn(o.p) ==> |o.rest| < 2)
  }

  lemma NotYet(q: Parser<string>, x: string, data: string, n: nat)
    requires q.mode == EndState && q.fsm !in {End, Error, GetValueRemaining} && Round(q, x).Need? && |x| + 2 < n
    ensures Stops(Run(q, x), data, x, n)
  {
    NeedStays(q, x);
    RunRound(q, x);
    hide Round, Run;
  }

  /** The end of an item: its line feed, its data and the line end. */
  function Ending(data: string): string {
    "\n" + (data + "\r\n")
  }

  lemma ValuePart(p: Parser<string>, r: Retrieval<string>, data: string, x: string)
    requires p.mode == EndState
    requires r.bytes == |data| < U32 && r.bytesRemain == (|data| + 1) % U32 && r.data == ""
    requires x <= Ending(data) && |x| < |Ending(data)|
    ensures Stops(Run(With(p, r, GetValueRemaining), x), data, x, |Ending(data)|)
  {
    PartOfValue(p, r, data, x);
    RunRound(With(p, r, GetValueRemaining), x);
    hide Round, Run;
  }

  /** Once the length is read and there is no unique number. */
  lemma PlainPart(p: Parser<string>, r: Retrieval<string>, data: string, x: string)
    requires p.mode == EndState
    requires r.bytes == |data| < U32 && r.bytesRemain == (|data| + 1) % U32 && r.data == ""
    requires x <= Ending(data) && |x| < |Ending(data)|
    ensures Stops(Run(With(p, r, GetBytesCas), x), data, x, |Ending(data)|)
  {
    var q := With(p, r, GetBytesCas);
    if x == "" {
      assert Round(q, x).Need?;
      NotYet(q, x, data, |Ending(data)|);
    } else {
      assert x == "\n" + x[1..];
      NoCas(p, r, x[1..]);
      Parsing(q, x);
      hide Round, Run;
      ValuePart(p, r.(cas := 0), data, x);
    }
  }

  /** Once the length is read and the unique number `cas` follows. */
  lemma CasPart(p: Parser<string>, r: Retrieval<string>, cas: nat, data: string, x: string)
    requires p.mode == EndState
    requires r.bytes == |data| < U32 && r.bytesRemain == (|data| + 1) % U32 && r.data == ""
    requires x <= Decimal(cas) + "\r" + Ending(data) && |x| < |Decimal(cas) + "\r" + Ending(data)|
    ensures Stops(Run(With(p, r, GetBytesCas), x), data, x, |Decimal(cas) + "\r" + Ending(data)|)
  {
    var q, a := With(p, r, GetBytesCas), Decimal(cas) + "\r";
    hide Round, Run, Decimal;
    PrefixOf(x, a, Ending(data));
    if |x| < |a| {
      Within(x, Decimal(cas), "\r");
      PartOfCas(q, x, cas);
      NotYet(q, x, data, |a + Ending(data)|);
    } else {
      var y := x[|a|..];
      CasWord(p, r, cas, y);
      Parsing(q, x);
      ValuePart(p, r.(cas := cas % U64), data, y);
    }
  }

  lemma Within(x: string, a: string, c: string)
    requires x <= a + c && |x| < |a + c| && |c| == 1
    ensures x <= a
  {
    PrefixOf(x, a, c);
  }

  /** The text that follows the length of the value. */
  function AfterLength(i: Item): string {
    if i.cas.None? then Ending(i.data) else Decimal(i.cas.value) + "\r" + Ending(i.data)
  }

  lemma TailSplit(i: Item)
    ensures var c := if i.cas.None? then '\r' else ' ';
      HeaderTail(i, Ending(i.data)) == Decimal(|i.data|) + [c] + AfterLength(i) && |AfterLength(i)| >= 3
  {
    hide Decimal;
  }

  lemma AfterPart(p: Parser<string>, i: Item, size: Retrieval<string>, x: string)
    requires p.mode == EndState && Sendable(i) && x <= AfterLength(i) && |x| < |AfterLength(i)|
    requires size.bytes == |i.data| && size.bytesRemain == (|i.data| + 1) % U32 && size.data == ""
    ensures Stops(Run(With(p, size, GetBytesCas), x), i.data, x, |AfterLength(i)|)
  {
    hide Run, Decimal, Stops, Ending;
    if i.cas.None? {
      PlainPart(p, size, i.data, x);
    } else {
      CasPart(p, size, i.cas.value, i.data, x);
    }
  }

  /** From the length of the value on. */
  lemma TailPart(p: Parser<string>, i: Item, r: Retrieval<string>, x: string)
    requires p.mode == EndState && Sendable(i) && r.bytes == 0 && r.bytesRemain == 1 && r.data == ""
    requires var tail := HeaderTail(i, Ending(i.data)); x <= tail && |x| < |tail|
    ensures Stops(Run(With(p, r, GetFlag), x), i.data, x, |HeaderTail(i, Ending(i.data))|)
  {
    var n, q := |i.data|, With(p, r, GetFlag);
    var c := if i.cas.None? then '\r' else ' ';
    var a := Decimal(n) + [c];
    TailSplit(i);
    hide Round, Run, Decimal, HeaderTail, AfterLength, Ending;
    PrefixOf(x, a, AfterLength(i));
    if |x| < |a| {
      Within(x, Decimal(n), [c]);
      WithWith(p, r, r, GetFlag, GetFlag);
      PartOfBytes(q, x, n);
      NotYet(q, x, i.data, |a + AfterLength(i)|);
    } else {
      var y := x[|a|..];
      BytesWord(p, r, n, c, y);
      Parsing(q, x);
      AfterPart(p, i, r.(bytes := n, bytesRemain := (n + 1) % U32), y);
    }
  }

  lemma EncodeAlone(i: Item)
    ensures Encode(i) == "VALUE " + (i.key + " " + (Decimal(i.flags) + " " + HeaderTail(i, Ending(i.data))))
  {
    EncodeSplit(i, "");
    hide HeaderTail, Encode;
    assert Encode(i) + "" == Encode(i) && "\r\n" + "" == "\r\n";
  }

  lemma TailLong(i: Item)
    ensures |HeaderTail(i, Ending(i.data))| >= 3
  {
    hide Decimal;
  }

  /** From the flags on. */
  lemma FlagsPart(p: Parser<string>, i: Item, r: Retrieval<string>, x: string)
    requires p.mode == EndState && Sendable(i) && r.key != "" && r.bytes == 0 && r.bytesRemain == 1 && r.data == ""
    requires var s := Decimal(i.flags) + " " + HeaderTail(i, Ending(i.data)); x <= s && |x| < |s|
    ensures Stops(Run(With(p, r, GetKey), x), i.data, x, |Decimal(i.flags) + " " + HeaderTail(i, Ending(i.data))|)
  {
    var q, a, rest := With(p, r, GetKey), Decimal(i.flags) + " ", HeaderTail(i, Ending(i.data));
    TailLong(i);
    hide Round, Run, Decimal, HeaderTail;
    PrefixOf(x, a, rest);
    if |x| < |a| {
      Within(x, Decimal(i.flags), " ");
      WithWith(p, r, r, GetKey, GetKey);
      PartOfFlags(q, x, i.flags);
      NotYet(q, x, i.data, |a + rest|);
    } else {
      var y := x[|a|..];
      FlagsWord(p, r, i.flags, ' ', y);
      Parsing(q, x);
      TailPart(p, i, r.(flags := i.flags % U32), y);
    }
  }

  /** From the key on. */
  lemma KeyPart(p: Parser<string>, i: Item, x: string)
    requires p.mode == EndState && Sendable(i)
    requires var s := i.key + " " + (Decimal(i.flags) + " " + HeaderTail(i, Ending(i.data))); x <= s && |x| < |s|
    ensures var s := i.key + " " + (Decimal(i.flags) + " " + HeaderTail(i, Ending(i.data)));
      Stops(Run(With(p, FRESH, GetStart), x), i.data, x, |s|)
  {
    var q, a, rest := With(p, FRESH, GetStart), i.key + " ", Decimal(i.flags) + " " + HeaderTail(i, Ending(i.data));
    TailLong(i);
    hide Round, Run, Decimal, HeaderTail;
    PrefixOf(x, a, rest);
    if |x| < |a| {
      Within(x, i.key, " ");
      PartOfKey(q, x, i.key);
      NotYet(q, x, i.data, |a + rest|);
    } else {
      var y := x[|a|..];
      KeyWord(p, FRESH, i.key, y);
      Parsing(q, x);
      FlagsPart(p, i, FRESH.(key := i.key, keyLen := |i.key| % U8), y);
    }
  }

  /** Part of an item: the parser asks for more, and is torn iff only the line end of 2^32 - 1 bytes is missing. */
  lemma ItemPart(p: Parser<string>, i: Item, x: string)
    requires p.fsm == Start && p.mode == EndState && Sendable(i) && x <= Encode(i) && |x| < |Encode(i)|
    ensures Stops(Run(p, x), i.data, x, |Encode(i)|)
  {
    var a, rest := "VALUE ", i.key + " " + (Decimal(i.flags) + " " + HeaderTail(i, Ending(i.data)));
    EncodeAlone(i);
    TailLong(i);
    hide Round, Run, Decimal, HeaderTail, Encode;
    PrefixOf(x, a, rest);
    if |x| < |a| {
      PartOfLiteral(p, x, a);
      NotYet(p, x, i.data, |Encode(i)|);
    } else {
      var y := x[|a|..];
      ValueWord(p, y);
      Parsing(p, x);
      KeyPart(p, i, y);
    }
  }

  // ---------------------------------------------------------------- part of a reply

  /** After `n` bytes of the reply, a value of 2^32 - 1 bytes has come and its line end has not, or not all. */
  predicate Tears(items: seq<Item>, n: nat)
    decreases |items|
  {
    items != [] &&
      var m := |Encode(items[0])|;
      if n < m then |items[0].data| == U32 - 1 && n + 2 >= m else Tears(items[1..], n - m)
  }

  ghost predicate TornOutcome(o: Outcome<string>) {
    o.Need? && Torn(o.p)
  }

  lemma EndPart(p: Parser<string>, x: string, t: string)
    requires p.fsm == Start && p.mode == EndState && x <= "END\r\n" + t
    ensures !TornOutcome(Run(p, x))
  {
    PrefixOf(x, "END\r\n", t);
    if |x| < 5 {
      PartOfLiteral(p, x, "END\r\n");
      RunRound(p, x);
    } else {
      EndParsed(p, x[5..]);
    }
    hide Round, Run;
  }

  /** On the first part of a reply the parser is torn iff the part ends where the reply tears. */
  lemma {:induction false} ReplyPart(p: Parser<string>, items: seq<Item>, t: string, x: string)
    requires p.fsm == Start && p.mode == EndState && forall k :: 0 <= k < |items| ==> Sendable(items[k])
    requires x <= EncodeAll(items) + t
    ensures TornOutcome(Run(p, x)) <==> Tears(items, |x|)
    ensures TornOutcome(Run(p, x)) ==> |Run(p, x).rest| < 2
    decreases |items|
  {
    hide Run, Encode, Sendable, Torn;
    if items == [] {
      EndPart(p, x, t);
    } else {
      var i, rest := items[0], EncodeAll(items[1..]) + t;
      assert EncodeAll(items) + t == Encode(i) + rest;
      PrefixOf(x, Encode(i), rest);
      if |x| < |Encode(i)| {
        ItemPart(p, i, x);
      } else {
        var y := x[|Encode(i)|..];
        ItemParsed(p, i, y);
        ReplyPart(With(p, Parsed(i), Start), items[1..], t, y);
      }
    }
  }

  // ---------------------------------------------------------------- every cut of a reply

  /** No piece ends where the reply tears. */
  ghost predicate NoTear(items: seq<Item>, pieces: seq<string>) {
    forall k :: 0 < k < |pieces| ==> !Tears(items, |Concat(pieces[..k])|)
  }

  ghost predicate GetReply(p: Parser<string>, items: seq<Item>) {
    p.fsm == Start && p.mode == EndState && forall k :: 0 <= k < |items| ==> Sendable(items[k])
  }

  lemma SaneStart(p: Parser<string>)
    requires p.fsm == Start
    ensures Sane(p)
  {}

  /** As long as no call was torn, the next one is torn iff the pieces so far end where the reply tears. */
  lemma PieceTears(p: Parser<string>, items: seq<Item>, t: string, pieces: seq<string>, k: nat)
    requires GetReply(p, items) && Concat(pieces) == EncodeAll(items) + t
    requires 0 < k <= |pieces| && Whole(p, pieces[..k])
    ensures TornOutcome(Feed(p, pieces[..k])) <==> Tears(items, |Concat(pieces[..k])|)
  {
    hide Run, Feed, Whole, Sendable, EncodeAll, Torn, Sane;
    SaneStart(p);
    ChunkIndependence(p, pieces[..k]);
    ConcatPrefix(pieces, k);
    ReplyPart(p, items, t, Concat(pieces[..k]));
  }

  lemma WholeUpTo(p: Parser<string>, pieces: seq<string>, k: nat)
    requires k <= |pieces|
    ensures Whole(p, pieces) ==> Whole(p, pieces[..k])
    ensures k < |pieces| && Whole(p, pieces[..k]) && !TornOutcome(Feed(p, pieces[..k])) ==> Whole(p, pieces[..k + 1])
  {
    hide Feed, Torn;
    forall n | k <= n <= |pieces|
      ensures forall j :: 0 <= j < n ==> pieces[..n][..j] == pieces[..j]
    {
    }
  }

  lemma {:induction false} WholeBefore(p: Parser<string>, items: seq<Item>, t: string, pieces: seq<string>, k: nat)
    requires GetReply(p, items) && Concat(pieces) == EncodeAll(items) + t && NoTear(items, pieces) && k <= |pieces|
    ensures Whole(p, pieces[..k])
  {
    hide Whole, Tears, EncodeAll, GetReply, Feed, Concat;
    if k == 0 {
      NoPieces(p, pieces);
    } else {
      WholeBefore(p, items, t, pieces, k - 1);
      WholeUpTo(p, pieces, k - 1);
      if k > 1 {
        PieceTears(p, items, t, pieces, k - 1);
      } else {
        NoPieces(p, pieces);
        NotTorn(p, items);
      }
    }
  }

  lemma NoPieces(p: Parser<string>, pieces: seq<string>)
    ensures pieces[..0] == [] && Feed(p, pieces[..0]) == Need(p, "") && Whole(p, pieces[..0])
  {}

  lemma NotTorn(p: Parser<string>, items: seq<Item>)
    requires GetReply(p, items)
    ensures !TornOutcome(Need(p, ""))
  {}

  /** No call is torn iff no piece ends where the reply tears. */
  lemma WholeIff(p: Parser<string>, items: seq<Item>, t: string, pieces: seq<string>)
    requires GetReply(p, items) && Concat(pieces) == EncodeAll(items) + t
    ensures Whole(p, pieces) <==> NoTear(items, pieces)
  {
    if NoTear(items, pieces) {
      WholeBefore(p, items, t, pieces, |pieces|);
      assert pieces[..|pieces|] == pieces;
    } else if Whole(p, pieces) {
      var k :| 0 < k < |pieces| && Tears(items, |Concat(pieces[..k])|);
      WholeUpTo(p, pieces, k);
      PieceTears(p, items, t, pieces, k);
    }
  }

  /** What a client that asked for the items has in the end. */
  function Received(p: Parser<string>, items: seq<Item>, t: string): Outcome<string> {
    Go(p.(fsm := End, retrievals := p.retrievals + ParsedAll(items)), t)
  }

  /** Cut anywhere but there, a get reply gives the items sent. */
  lemma ItemsReceived(p: Parser<string>, items: seq<Item>, t: string, pieces: seq<string>)
    requires GetReply(p, items) && pieces != [] && Concat(pieces) == EncodeAll(items) + t && NoTear(items, pieces)
    ensures Feed(p, pieces) == Received(p, items, t)
  {
    hide Run, Feed, Whole, Sendable, EncodeAll, NoTear, Sane;
    SaneStart(p);
    WholeIff(p, items, t, pieces);
    ChunkIndependence(p, pieces);
    ItemsParsed(p, items, t);
  }

  // ---------------------------------------------------------------- the cut that loses a reply

  /** A torn parser takes up to 2^32 bytes more for the value, and is torn again after exactly that many. */
  lemma TornEats(q: Parser<string>, s: string)
    requires q.mode == EndState && Torn(q) && 0 < |s| <= U32
    ensures Run(q, s).Need? && (|s| == U32 ==> Torn(Run(q, s).p) && Run(q, s).rest == "")
    ensures Run(q, s).p.mode == EndState
  {
    RunRound(q, s);
    NeedModes(q, s);
    var r := Last(q.retrievals);
    var skipped, y := r.(bytesRemain := U32 - 1), s[1..];
    assert (r.bytes + 1) % U32 == 0 && (r.bytesRemain + U32 - 1) % U32 == U32 - 1;
    IsValueRound(q, s);
    assert ValueRound(q, s) == DataRound(WithLast(q, skipped, q.fsm), y);
    hide Round, Run, ValueRound;
    LastTwice(q.retrievals, skipped, skipped.(data := ""));
    if |y| == U32 - 1 {
      LastTwice(q.retrievals, skipped, skipped.(data := y[..U32 - 1], bytesRemain := 0));
    }
  }

  lemma NeedModes(q: Parser<string>, s: string)
    ensures Round(q, s).Need? ==> Round(q, s).p.mode == q.mode
  {
    if Round(q, s).Need? {
      NeedStays(q, s);
    }
  }

  /** Fed in portions of that size, it takes everything that is left for the value. */
  lemma {:induction false} Starved(p: Parser<string>, s: string, pieces: seq<string>) returns (all: seq<string>)
    requires pieces != [] && Concat(pieces) <= s && TornOutcome(Feed(p, pieces))
    requires Feed(p, pieces).p.mode == EndState && |Feed(p, pieces).rest| < 2
    ensures all != [] && Concat(all) == s && Feed(p, all).Need?
    decreases |s| - |Concat(pieces)|
  {
    var m := |Concat(pieces)|;
    if m == |s| {
      return pieces;
    }
    var q, rest := Feed(p, pieces).p, Feed(p, pieces).rest;
    var n := if m + (U32 - |rest|) <= |s| then U32 - |rest| else |s| - m;
    var more := pieces + [s[m..m + n]];
    Portion(p, s, pieces, n);
    TornEats(q, rest + s[m..m + n]);
    hide Run, Torn, Feed;
    if |rest| + n == U32 {
      all := Starved(p, s, more);
    } else {
      all := more;
    }
  }

  lemma TornFed(r: Outcome<string>, piece: string)
    requires TornOutcome(r)
    ensures r.Need? && FeedOne(r, piece) == Run(r.p, r.rest + piece)
  {
    hide Run;
  }

  lemma Portion(p: Parser<string>, s: string, pieces: seq<string>, n: nat)
    requires Concat(pieces) <= s && |Concat(pieces)| + n <= |s| && TornOutcome(Feed(p, pieces))
    ensures var m := |Concat(pieces)|;
      var more := pieces + [s[m..m + n]];
      && Concat(more) == s[..m + n]
      && Feed(p, more) == Run(Feed(p, pieces).p, Feed(p, pieces).rest + s[m..m + n])
  {
    hide Run, FeedOne, TornOutcome;
    var m := |Concat(pieces)|;
    var more := pieces + [s[m..m + n]];
    assert more[..|more| - 1] == pieces;
    TornFed(Feed(p, pieces), s[m..m + n]);
    assert s[..m] + s[m..m + n] == s[..m + n];
  }

  lemma {:induction false} TearPoint(items: seq<Item>, k: nat) returns (n: nat)
    requires k < |items| && |items[k].data| == U32 - 1
    ensures Tears(items, n) && n <= |EncodeAll(items)|
  {
    LongEnough(items[0]);
    hide Encode;
    if k == 0 {
      n := |Encode(items[0])| - 2;
    } else {
      var m := TearPoint(items[1..], k - 1);
      n := |Encode(items[0])| + m;
    }
  }

  lemma LongEnough(i: Item)
    ensures |Encode(i)| >= 2
  {}

  lemma {:induction false} NeverTears(items: seq<Item>, n: nat)
    requires forall k :: 0 <= k < |items| ==> |items[k].data| != U32 - 1
    ensures !Tears(items, n)
    decreases |items|
  {
    if items != [] && n >= |Encode(items[0])| {
      NeverTears(items[1..], n - |Encode(items[0])|);
    }
  }

  /** A cut after a value of 2^32 - 1 bytes with which the reply never ends. */
  lemma BadCut(p: Parser<string>, items: seq<Item>, t: string, k: nat) returns (pieces: seq<string>)
    requires GetReply(p, items) && k < |items| && |items[k].data| == 0xFFFF_FFFF
    ensures pieces != [] && Concat(pieces) == EncodeAll(items) + t && Feed(p, pieces).Need?
  {
    hide Run, Torn, EncodeAll, Tears, Sendable, Feed, Concat;
    var s := EncodeAll(items) + t;
    var n := TearPoint(items, k);
    ReplyPart(p, items, t, s[..n]);
    ModeKept(p, s[..n]);
    OnePiece(p, s[..n]);
    pieces := Starved(p, s, [s[..n]]);
  }

  lemma OnePiece(p: Parser<string>, s: string)
    requires p.fsm == Start
    ensures Concat([s]) == s && Feed(p, [s]) == Run(p, s)
  {
    hide Run;
    assert [s][..0] == [] && Concat([s]) == "" + s == s;
  }

  lemma {:induction false} ModeKept(p: Parser<string>, s: string)
    ensures Run(p, s).Need? ==> Run(p, s).p.mode == p.mode
    decreases |s|, Rank(p.fsm)
  {
    if !CanEnd(p) {
      RunRound(p, s);
      RoundMode(p, s);
      hide Round, Run;
      var r := Round(p, s);
      if r.Go? {
        ModeKept(r.p, r.rest);
      }
    }
  }

  lemma StartMode(p: Parser<string>, s: string)
    ensures var r := StartRound(p, s); r.Go? || r.Need? ==> r.p.mode == p.mode
  {
    hide Expect, Until;
  }

  lemma ValueMode(p: Parser<string>, s: string)
    requires p.retrievals != []
    ensures var r := ValueRound(p, s); r.Go? || r.Need? ==> r.p.mode == p.mode
  {}

  lemma RoundMode(p: Parser<string>, s: string)
    ensures var r := Round(p, s); r.Go? || r.Need? ==> r.p.mode == p.mode
  {
    hide Until, Unsigned, StartRound, ValueRound;
    StartMode(p, s);
    if p.retrievals != [] {
      ValueMode(p, s);
    }
  }

  /** Every way of cutting a get reply gives the items sent, iff none of its values has 2^32 - 1 bytes. */
  lemma AllCutsIff(p: Parser<string>, items: seq<Item>, t: string)
    requires GetReply(p, items)
    ensures (forall pieces :: pieces != [] && Concat(pieces) == EncodeAll(items) + t ==>
               Feed(p, pieces) == Received(p, items, t))
      <==> (forall k :: 0 <= k < |items| ==> |items[k].data| != 0xFFFF_FFFF)
  {
    hide Run, Feed, EncodeAll, Sendable, Tears;
    if forall k :: 0 <= k < |items| ==> |items[k].data| != U32 - 1 {
      forall pieces | pieces != [] && Concat(pieces) == EncodeAll(items) + t
        ensures Feed(p, pieces) == Received(p, items, t)
      {
        forall k | 0 < k < |pieces|
          ensures !Tears(items, |Concat(pieces[..k])|)
        {
          NeverTears(items, |Concat(pieces[..k])|);
        }
        ItemsReceived(p, items, t, pieces);
      }
    } else {
      var k :| 0 <= k < |items| && |items[k].data| == U32 - 1;
      var pieces := BadCut(p, items, t, k);
      assert Feed(p, pieces) != Received(p, items, t);
    }
  }
}
