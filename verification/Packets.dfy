/** The reply parser as it works: on the block reader, updating its fields round by round. */
module Packets {
  import opened Stream
  import opened BufferReader
  import opened Reply
  import opened ReplyTheorems
  import opened ReplyCuts
  import opened ReplyKeys
  import opened Wrappers

  // ---------------------------------------------------------------- results as texts

  function TextOf(blocks: seq<DataBlock>, t: TokenData): string {
    if TokenInRange(blocks, t) then Text(blocks, t) else ""
  }

  function View(blocks: seq<DataBlock>, r: Retrieval<TokenData>): Retrieval<string> {
    Retrieval(TextOf(blocks, r.key), r.keyLen, r.flags, r.bytes, r.bytesRemain, r.cas, TextOf(blocks, r.data))
  }

  function Views(blocks: seq<DataBlock>, rs: seq<Retrieval<TokenData>>): (v: seq<Retrieval<string>>)
    ensures |v| == |rs| && forall i :: 0 <= i < |v| ==> v[i] == View(blocks, rs[i])
  {
    seq(|rs|, i requires 0 <= i < |rs| => View(blocks, rs[i]))
  }

  function LineView(blocks: seq<DataBlock>, l: Line<TokenData>): Line<string> {
    Line(TextOf(blocks, l.text), l.len)
  }

  function LineViews(blocks: seq<DataBlock>, ls: seq<Line<TokenData>>): (v: seq<Line<string>>)
    ensures |v| == |ls| && forall i :: 0 <= i < |v| ==> v[i] == LineView(blocks, ls[i])
  {
    seq(|ls|, i requires 0 <= i < |ls| => LineView(blocks, ls[i]))
  }

  lemma ViewsPush(blocks: seq<DataBlock>, rs: seq<Retrieval<TokenData>>, r: Retrieval<TokenData>)
    ensures Views(blocks, rs + [r]) == Views(blocks, rs) + [View(blocks, r)]
  {}

  lemma ViewsLast(blocks: seq<DataBlock>, rs: seq<Retrieval<TokenData>>, r: Retrieval<TokenData>)
    requires rs != []
    ensures Last(Views(blocks, rs)) == View(blocks, Last(rs))
    ensures Views(blocks, SetLast(rs, r)) == SetLast(Views(blocks, rs), View(blocks, r))
    ensures SetLast(rs, Last(rs)) == rs
  {}

  lemma LineViewsPush(blocks: seq<DataBlock>, ls: seq<Line<TokenData>>, l: Line<TokenData>)
    ensures LineViews(blocks, ls + [l]) == LineViews(blocks, ls) + [LineView(blocks, l)]
  {}

  lemma LineViewsLast(blocks: seq<DataBlock>, ls: seq<Line<TokenData>>, l: Line<TokenData>)
    requires ls != []
    ensures LineViews(blocks, SetLast(ls, l)) == SetLast(LineViews(blocks, ls), LineView(blocks, l))
  {}

  // ---------------------------------------------------------------- results and the reader's tokens

  /** A token that holds bytes is one the reader knows to be live. */
  ghost predicate IsLive(t: TokenData, live: seq<TokenData>) {
    t == [] || t in live
  }

  /** Every token in a result is live. */
  ghost predicate AllLive(rs: seq<Retrieval<TokenData>>, ls: seq<Line<TokenData>>, live: seq<TokenData>) {
    && (forall i :: 0 <= i < |rs| ==> IsLive(rs[i].key, live) && IsLive(rs[i].data, live))
    && (forall i :: 0 <= i < |ls| ==> IsLive(ls[i].text, live))
  }

  lemma LiveMore(rs: seq<Retrieval<TokenData>>, ls: seq<Line<TokenData>>, live: seq<TokenData>, t: TokenData)
    requires AllLive(rs, ls, live)
    ensures AllLive(rs, ls, live + [t])
  {}

  lemma LivePush(rs: seq<Retrieval<TokenData>>, ls: seq<Line<TokenData>>, live: seq<TokenData>, r: Retrieval<TokenData>)
    requires AllLive(rs, ls, live) && IsLive(r.key, live) && IsLive(r.data, live)
    ensures AllLive(rs + [r], ls, live)
    ensures rs != [] ==> AllLive(SetLast(rs, r), ls, live)
  {}

  lemma LivePushLine(rs: seq<Retrieval<TokenData>>, ls: seq<Line<TokenData>>, live: seq<TokenData>, l: Line<TokenData>)
    requires AllLive(rs, ls, live) && IsLive(l.text, live)
    ensures AllLive(rs, ls + [l], live)
    ensures ls != [] ==> AllLive(rs, SetLast(ls, l), live)
  {}

  lemma LiveLast(rs: seq<Retrieval<TokenData>>, ls: seq<Line<TokenData>>, live: seq<TokenData>)
    requires AllLive(rs, ls, live) && rs != []
    ensures IsLive(Last(rs).key, live) && IsLive(Last(rs).data, live)
  {}

  /** Live tokens can be read, and keep their texts when blocks are added to. */
  lemma ViewsGrow(a: seq<DataBlock>, b: seq<DataBlock>, rs: seq<Retrieval<TokenData>>, ls: seq<Line<TokenData>>,
                  live: seq<TokenData>)
    requires AllLive(rs, ls, live) && LiveInRange(a, live) && Grows(a, b)
    ensures Views(b, rs) == Views(a, rs) && LineViews(b, ls) == LineViews(a, ls)
  {
    hide Text, Views, LineViews;
    forall i | 0 <= i < |rs|
      ensures View(b, rs[i]) == View(a, rs[i])
    {
      TextKept(a, b, rs[i].key, live);
      TextKept(a, b, rs[i].data, live);
    }
    forall i | 0 <= i < |ls|
      ensures LineView(b, ls[i]) == LineView(a, ls[i])
    {
      TextKept(a, b, ls[i].text, live);
    }
  }

  lemma TextKept(a: seq<DataBlock>, b: seq<DataBlock>, t: TokenData, live: seq<TokenData>)
    requires IsLive(t, live) && LiveInRange(a, live) && Grows(a, b)
    ensures TextOf(b, t) == TextOf(a, t)
  {
    TextGrows(a, b, t);
  }

  // ---------------------------------------------------------------- reading and skipping what follows

  method ReadWord(reader: Reader, c: char) returns (err: Code, n: nat, token: TokenData)
    requires reader.Valid()
    modifies reader`cursor, reader`refs, reader`readLeft, reader`live
    ensures reader.Valid()
    ensures match Until(old(reader.Unread()), c)
      case Got(text, rest) =>
        && err == RetOk && reader.Unread() == rest && TextOf(reader.blocks, token) == text && n == |text|
        && reader.live == old(reader.live) + [token]
      case _ => err == Incomplete && reader.Unread() == old(reader.Unread()) && reader.live == old(reader.live)
  {
    ghost var s := reader.Unread();
    err, n, token := reader.ReadUntil(c);
    if err == RetOk {
      assert s[n..][1..] == s[n + 1..];
      err := reader.SkipBytes(1);
    }
  }

  method ReadNumber(reader: Reader) returns (err: Code, value: nat)
    requires reader.Valid()
    modifies reader`cursor, reader`refs, reader`readLeft
    ensures reader.Valid()
    ensures match Unsigned(old(reader.Unread()))
      case Got(n, rest) => err == RetOk && reader.Unread() == rest && value == n
      case Short => err == Incomplete && reader.Unread() == old(reader.Unread()) && value == 0
      case Bad => err == Programming && reader.Unread() == old(reader.Unread()) && value == 0
  {
    ghost var s := reader.Unread();
    err, value := reader.ReadUnsigned();
    if err == RetOk {
      ghost var k := First(s, ForNonDigit);
      assert s[k..][1..] == s[k + 1..];
      err := reader.SkipBytes(1);
    }
  }

  // ---------------------------------------------------------------- the parser

  /** How a round ends: another one follows, the call returns, an assertion fails, or the loop hangs. */
  datatype Status = Going | Stop(err: Code) | Crashed | Spinning

  class PacketParser {
    const reader: Reader
    var mode: Mode
    var fsm: Fsm
    var keys: seq<string>
    var retrievals: seq<Retrieval<TokenData>>
    var messages: seq<Message>
    var lines: seq<Line<TokenData>>
    var counters: seq<Counter>

    /** The parser with its tokens read as texts. */
    ghost function Model(): Parser<string>
      reads this, reader`blocks
    {
      Parser(mode, fsm, keys, Views(reader.blocks, retrievals), messages, LineViews(reader.blocks, lines), counters)
    }

    /** Every token in a result is live, so that no block it lies in can be taken for free. */
    ghost predicate Kept()
      reads `retrievals, `lines, reader`live
    {
      AllLive(retrievals, lines, reader.live)
    }

    ghost predicate Valid()
      reads this, reader
    {
      reader.Valid() && Kept()
    }

    /** The parser, its reader and the status are what `r` says. */
    ghost predicate Agrees(st: Status, r: Outcome<string>)
      reads this, reader
    {
      match r
      case Go(q, rest) => st == Going && reader.Valid() && Model() == q && reader.Unread() == rest
      case Need(q, rest) => st == Stop(Incomplete) && reader.Valid() && Model() == q && reader.Unread() == rest
      case Fail(code, q, left) =>
        && st == Stop(code) && code != Incomplete && Model() == q
        && if left.Some? then reader.Valid() && reader.Unread() == left.value else !reader.Valid()
      case Crash => st == Crashed
      case Spin => st == Spinning
    }

    /**
     * The assertion on the key of the last result has failed, because the key is longer than its
     * 8-bit length can say and lies in one block. The key is among the results of `r`, if it has any.
     */
    ghost predicate Aborted(st: Status, r: Outcome<string>)
      reads this, reader
    {
      && st == Crashed && retrievals != []
      && var kv := Last(retrievals);
         var key := TextOf(reader.blocks, kv.key);
         Join(key, |kv.key|, kv.keyLen).Failed? && KeyedIn(r, |retrievals| - 1, key, kv.keyLen)
    }

    ghost predicate Follows(st: Status, r: Outcome<string>)
      reads this, reader
    {
      Agrees(st, r) || Aborted(st, r)
    }

    constructor (reader: Reader, mode: Mode, keys: seq<string>)
      ensures this.reader == reader && Kept() && Model() == Parser(mode, Start, keys, [], [], [], [])
    {
      this.reader := reader;
      this.mode, this.fsm, this.keys := mode, Start, keys;
      retrievals, messages, lines, counters := [], [], [], [];
    }

    // -------------------------------------------------------------- start_state

    /** A literal and then the next state. */
    method ExpectMessage(lit: string, kind: Kind) returns (st: Status)
      requires Valid() && lit != "" && '\0' !in lit
      modifies `keys, `messages, reader`cursor, reader`refs, reader`readLeft
      ensures Kept()
      ensures Agrees(st, AfterExpect(old(Model()), old(reader.Unread()), lit, Answer(old(Model()), kind)))
    {
      hide Reader.Valid, Reader.Unread, AllLive, Views, LineViews;
      var err := reader.ExpectBytes(lit);
      if err != RetOk {
        return Stop(err);
      }
      if keys == [] {
        messages := messages + [Unasked];
      } else {
        messages := messages + [Message(kind, keys[0])];
        keys := keys[1..];
      }
      st := Going;
    }

    method ExpectValue() returns (st: Status)
      requires Valid()
      modifies `fsm, `retrievals, reader`cursor, reader`refs, reader`readLeft
      ensures Kept()
      ensures var p := old(Model());
        Agrees(st, AfterExpect(p, old(reader.Unread()), "VALUE ",
                               p.(fsm := GetStart, retrievals := p.retrievals + [Retrieval("", 0, 0, 0, 1, 0, "")])))
    {
      hide Reader.Valid, Reader.Unread, AllLive, Views, LineViews;
      var err := reader.ExpectBytes("VALUE ");
      if err != RetOk {
        return Stop(err);
      }
      ViewsPush(reader.blocks, retrievals, Retrieval([], 0, 0, 0, 1, 0, []));
      LivePush(retrievals, lines, reader.live, Retrieval([], 0, 0, 0, 1, 0, []));
      retrievals := retrievals + [Retrieval([], 0, 0, 0, 1, 0, [])];
      fsm := GetStart;
      st := Going;
    }

    method ExpectLine(lit: string, next: Fsm) returns (st: Status)
      requires Valid() && lit != "" && '\0' !in lit
      modifies `fsm, `lines, reader`cursor, reader`refs, reader`readLeft
      ensures Kept()
      ensures var p := old(Model());
        Agrees(st, AfterExpect(p, old(reader.Unread()), lit, p.(fsm := next, lines := p.lines + [Line("", 0)])))
    {
      hide Reader.Valid, Reader.Unread, AllLive, Views, LineViews;
      var err := reader.ExpectBytes(lit);
      if err != RetOk {
        return Stop(err);
      }
      LineViewsPush(reader.blocks, lines, Line([], 0));
      LivePushLine(retrievals, lines, reader.live, Line([], 0));
      lines := lines + [Line([], 0)];
      fsm := next;
      st := Going;
    }

    method ExpectEnd() returns (st: Status)
      requires Valid()
      modifies `fsm, reader`cursor, reader`refs, reader`readLeft
      ensures Kept()
      ensures var p := old(Model());
        Agrees(st, AfterExpect(p, old(reader.Unread()), "END\r\n", p.(fsm := End)))
    {
      hide Reader.Valid, Reader.Unread, AllLive, Views, LineViews;
      var err := reader.ExpectBytes("END\r\n");
      if err != RetOk {
        return Stop(err);
      }
      fsm := End;
      st := Going;
    }

    /** A line that reports an error; its token is freed again. */
    method ReadError(code: Code) returns (st: Status)
      requires Valid() && code != Incomplete
      modifies `fsm, reader`cursor, reader`refs, reader`readLeft, reader`live
      ensures Kept()
      ensures Agrees(st, ErrorLine(old(Model()), old(reader.Unread()), code))
    {
      hide Reader.Valid, Reader.Unread, AllLive, Views, LineViews, Until;
      var err, n, token := ReadWord(reader, '\n');
      if err != RetOk {
        return Stop(err);
      }
      reader.FreeTokenData(|reader.live| - 1, token);
      assert reader.live == old(reader.live);
      fsm := Error;
      st := Stop(code);
    }

    method StartV() returns (st: Status)
      requires Valid() && reader.Unread() != "" && reader.Unread()[0] == 'V'
      modifies this, reader`cursor, reader`refs, reader`readLeft, reader`live
      ensures Kept()
      ensures Agrees(st, StartRound(old(Model()), old(reader.Unread())))
    {
      hide Reader.Valid, Reader.Unread, AllLive, Views, LineViews, AfterExpect, ErrorLine, Answer;
      var err, c2 := reader.Peek(1);
      if err != RetOk {
        return Stop(err);
      }
      if c2 == 'A' {
        st := ExpectValue();
      } else if c2 == 'E' {
        st := ExpectLine("VERSION ", VerStart);
      } else {
        st := Spinning;
      }
    }

    method StartE() returns (st: Status)
      requires Valid() && reader.Unread() != "" && reader.Unread()[0] == 'E'
      modifies this, reader`cursor, reader`refs, reader`readLeft, reader`live
      ensures Kept()
      ensures Agrees(st, StartRound(old(Model()), old(reader.Unread())))
    {
      hide Reader.Valid, Reader.Unread, AllLive, Views, LineViews, AfterExpect, ErrorLine, Answer;
      var err, c2 := reader.Peek(1);
      if err != RetOk {
        return Stop(err);
      }
      if c2 == 'R' {
        st := ReadError(Programming);
      } else if c2 == 'N' {
        st := ExpectEnd();
      } else if c2 == 'X' {
        st := ExpectMessage("EXISTS\r\n", Exists);
      } else {
        st := Spinning;
      }
    }

    method StartS() returns (st: Status)
      requires Valid() && reader.Unread() != "" && reader.Unread()[0] == 'S'
      modifies this, reader`cursor, reader`refs, reader`readLeft, reader`live
      ensures Kept()
      ensures Agrees(st, StartRound(old(Model()), old(reader.Unread())))
    {
      hide Reader.Valid, Reader.Unread, AllLive, Views, LineViews, AfterExpect, ErrorLine, Answer;
      var err, c3 := reader.Peek(2);
      if err != RetOk {
        return Stop(err);
      }
      var c2;
      err, c2 := reader.Peek(1);
      if c2 == 'T' {
        if c3 == 'O' {
          st := ExpectMessage("STORED\r\n", Stored);
        } else {
          st := ExpectLine("STAT ", StatStart);
        }
      } else {
        st := ReadError(ServerError);
      }
    }

    method StartN() returns (st: Status)
      requires Valid() && reader.Unread() != "" && reader.Unread()[0] == 'N'
      modifies this, reader`cursor, reader`refs, reader`readLeft, reader`live
      ensures Kept()
      ensures Agrees(st, StartRound(old(Model()), old(reader.Unread())))
    {
      hide Reader.Valid, Reader.Unread, AllLive, Views, LineViews, AfterExpect, ErrorLine, Answer;
      var err, c5 := reader.Peek(4);
      if err != RetOk {
        return Stop(err);
      }
      if c5 == 'F' {
        st := ExpectMessage("NOT_FOUND\r\n", NotFound);
      } else if c5 == 'S' {
        st := ExpectMessage("NOT_STORED\r\n", NotStored);
      } else {
        st := Spinning;
      }
    }

    method StartState() returns (st: Status)
      requires Valid()
      modifies this, reader`cursor, reader`refs, reader`readLeft, reader`live
      ensures Kept()
      ensures Agrees(st, StartRound(old(Model()), old(reader.Unread())))
    {
      hide Reader.Valid, Reader.Unread, AllLive, Views, LineViews, AfterExpect, ErrorLine, Answer;
      var err, c1 := reader.Peek(0);
      if err != RetOk {
        return Stop(err);
      }
      match c1
      case 'V' => st := StartV();
      case 'E' => st := StartE();
      case 'O' => st := ExpectMessage("OK\r\n", Ok);
      case 'S' => st := StartS();
      case 'D' => st := ExpectMessage("DELETED\r\n", Deleted);
      case 'N' => st := StartN();
      case 'T' => st := ExpectMessage("TOUCHED\r\n", Touched);
      case 'C' => st := ReadError(Programming);
      case _ =>
        if Digit(c1) {
          counters := counters + [Counter(0, "")];
          fsm := IncrDecrStart;
          st := Going;
        } else {
          st := Stop(Programming);
        }
    }

    // -------------------------------------------------------------- the other states

    method KeyState() returns (st: Status)
      requires Valid() && retrievals != []
      modifies `fsm, `retrievals, reader`cursor, reader`refs, reader`readLeft, reader`live
      ensures Kept()
      ensures Agrees(st, KeyRound(old(Model()), old(reader.Unread())))
    {
      hide Reader.Valid, Reader.Unread, AllLive, Views, LineViews, Until;
      var kv := Last(retrievals);
      LiveLast(retrievals, lines, reader.live);
      var err, n, token := ReadWord(reader, ' ');
      if err != RetOk {
        ViewsLast(reader.blocks, retrievals, kv.(key := [], keyLen := 0));
        LivePush(retrievals, lines, reader.live, kv.(key := [], keyLen := 0));
        retrievals := SetLast(retrievals, kv.(key := [], keyLen := 0));
        return Stop(err);
      }
      ViewsLast(reader.blocks, retrievals, kv.(key := token, keyLen := n % U8));
      LiveMore(retrievals, lines, old(reader.live), token);
      LivePush(retrievals, lines, reader.live, kv.(key := token, keyLen := n % U8));
      retrievals := SetLast(retrievals, kv.(key := token, keyLen := n % U8));
      fsm := GetKey;
      st := Going;
    }

    method FlagsState() returns (st: Status)
      requires Valid() && retrievals != []
      modifies `fsm, `retrievals, reader`cursor, reader`refs, reader`readLeft
      ensures Kept()
      ensures Agrees(st, FlagRound(old(Model()), old(reader.Unread())))
    {
      hide Reader.Valid, Reader.Unread, AllLive, Views, LineViews, Unsigned;
      var kv := Last(retrievals);
      ViewsLast(reader.blocks, retrievals, kv);
      LiveLast(retrievals, lines, reader.live);
      if TextOf(reader.blocks, kv.key) == "" {
        return Crashed;
      }
      var err, flags := ReadNumber(reader);
      if err != RetOk {
        return Stop(err);
      }
      ViewsLast(reader.blocks, retrievals, kv.(flags := flags % U32));
      LivePush(retrievals, lines, reader.live, kv.(flags := flags % U32));
      retrievals := SetLast(retrievals, kv.(flags := flags % U32));
      fsm := GetFlag;
      st := Going;
    }

    method BytesState() returns (st: Status)
      requires Valid() && retrievals != []
      modifies `fsm, `retrievals, reader`cursor, reader`refs, reader`readLeft
      ensures Kept()
      ensures Agrees(st, BytesRound(old(Model()), old(reader.Unread())))
    {
      hide Reader.Valid, Reader.Unread, AllLive, Views, LineViews, Unsigned;
      var kv := Last(retrievals);
      ViewsLast(reader.blocks, retrievals, kv);
      LiveLast(retrievals, lines, reader.live);
      if (kv.bytes + 1) % U32 < kv.bytesRemain {
        return Crashed;
      }
      var err, n := ReadNumber(reader);
      if err != RetOk {
        return Stop(err);
      }
      var bytes := n % U32;
      var sized := kv.(bytes := bytes, bytesRemain := (bytes + 1) % U32);
      ViewsLast(reader.blocks, retrievals, sized);
      LivePush(retrievals, lines, reader.live, sized);
      retrievals := SetLast(retrievals, sized);
      fsm := GetBytesCas;
      st := Going;
    }

    method CasState() returns (st: Status)
      requires Valid() && retrievals != []
      modifies `fsm, `retrievals, reader`cursor, reader`refs, reader`readLeft
      ensures Kept()
      ensures Agrees(st, CasRound(old(Model()), old(reader.Unread())))
    {
      hide Reader.Valid, Reader.Unread, AllLive, Views, LineViews, Unsigned, WithLast, Last;
      var err, c := reader.Peek(0);
      if err != RetOk {
        return Stop(err);
      }
      if c == '\n' {
        SetCas(0, GetValueRemaining);
        return Going;
      }
      var cas;
      err, cas := ReadNumber(reader);
      if err != RetOk {
        SetCas(0, fsm);
        return Stop(err);
      }
      SetCas(cas, GetValueRemaining);
      st := Going;
    }

    method SetCas(cas: nat, next: Fsm)
      requires Kept() && retrievals != []
      modifies `fsm, `retrievals
      ensures Kept()
      ensures old(Model()).retrievals != []
      ensures Model() == WithLast(old(Model()), Last(old(Model()).retrievals).(cas := cas), next)
    {
      hide Reader.Valid, Reader.Unread, AllLive, Views, LineViews;
      var kv := Last(retrievals).(cas := cas);
      ViewsLast(reader.blocks, retrievals, kv);
      LiveLast(retrievals, lines, reader.live);
      LivePush(retrievals, lines, reader.live, kv);
      retrievals := SetLast(retrievals, kv);
      fsm := next;
    }

    lemma KeyReadable()
      requires Valid() && retrievals != []
      ensures TokenInRange(reader.blocks, Last(retrievals).key)
      ensures TextOf(reader.blocks, Last(retrievals).key) == Text(reader.blocks, Last(retrievals).key)
    {
      LiveLast(retrievals, lines, reader.live);
    }

    /** The last result as the flat parser has it. */
    lemma LastViewed()
      requires retrievals != []
      ensures Model().retrievals != [] && |Model().retrievals| == |retrievals|
      ensures Last(Model().retrievals).key == TextOf(reader.blocks, Last(retrievals).key)
      ensures Last(Model().retrievals).keyLen == Last(retrievals).keyLen
    {
      hide Views, LineViews, TextOf;
      ViewsLast(reader.blocks, retrievals, Last(retrievals));
    }

    /** The line end after the data, and then the key is looked at. */
    method SkipTrailer() returns (st: Status)
      requires Valid() && retrievals != []
      modifies `fsm, reader`cursor, reader`refs, reader`readLeft
      ensures Kept()
      ensures Follows(st, TrailerRound(old(Model()), old(reader.Unread())))
    {
      hide Reader.Valid, Reader.Unread, AllLive, Views, LineViews, TextOf;
      LastViewed();
      var err := reader.SkipBytes(2);
      if err != RetOk {
        return Stop(err);
      }
      KeyReadable();
      var kv := Last(retrievals);
      var key := ParseTokenData(reader.blocks, kv.key, kv.keyLen);
      if key == Failed {
        return Crashed;
      }
      fsm := Start;
      st := Going;
    }

    /** The data and how much of them is missing. */
    method SetData(data: TokenData, bytesRemain: nat)
      requires Kept() && retrievals != [] && IsLive(data, reader.live)
      modifies `retrievals
      ensures Kept() && old(Model()).retrievals != [] && retrievals != []
      ensures var r := Last(old(Model()).retrievals);
        && r.bytes == Last(retrievals).bytes && Last(retrievals).bytesRemain == bytesRemain
        && Model() == WithLast(old(Model()), r.(data := TextOf(reader.blocks, data), bytesRemain := bytesRemain), fsm)
    {
      hide Reader.Valid, Reader.Unread, AllLive, Views, LineViews;
      var kv := Last(retrievals).(data := data, bytesRemain := bytesRemain);
      ViewsLast(reader.blocks, retrievals, kv);
      LiveLast(retrievals, lines, reader.live);
      LivePush(retrievals, lines, reader.live, kv);
      retrievals := SetLast(retrievals, kv);
    }

    /** The data, once the line end before them has been read. */
    method ReadData() returns (st: Status)
      requires Valid() && retrievals != []
      modifies `fsm, `retrievals, reader`cursor, reader`refs, reader`readLeft, reader`live
      ensures Kept()
      ensures Follows(st, DataRound(old(Model()), old(reader.Unread())))
    {
      hide Reader.Valid, Reader.Unread, AllLive, Views, LineViews, TrailerRound;
      var kv := Last(retrievals);
      ViewsLast(reader.blocks, retrievals, kv);
      if kv.bytesRemain == kv.bytes {
        var err, token := reader.ReadBytes(kv.bytes);
        if err != RetOk {
          SetData([], kv.bytesRemain);
          return Stop(err);
        }
        LiveMore(retrievals, lines, old(reader.live), token);
        SetData(token, 0);
        st := SkipTrailer();
      } else if kv.bytesRemain == 0 {
        st := SkipTrailer();
      } else {
        st := Spinning;
      }
    }

    method CountDown()
      requires Kept() && retrievals != []
      modifies `retrievals
      ensures Kept() && old(Model()).retrievals != [] && retrievals != []
      ensures var r := Last(old(Model()).retrievals);
        Model() == WithLast(old(Model()), r.(bytesRemain := (r.bytesRemain + U32 - 1) % U32), fsm)
    {
      hide Reader.Valid, Reader.Unread, AllLive, Views, LineViews;
      var kv := Last(retrievals).(bytesRemain := (Last(retrievals).bytesRemain + U32 - 1) % U32);
      ViewsLast(reader.blocks, retrievals, kv);
      LiveLast(retrievals, lines, reader.live);
      LivePush(retrievals, lines, reader.live, kv);
      retrievals := SetLast(retrievals, kv);
    }

    /** The line end before the data. */
    method SkipLineFeed() returns (st: Status)
      requires Valid() && retrievals != []
      modifies `fsm, `retrievals, reader`cursor, reader`refs, reader`readLeft, reader`live
      ensures Kept() && old(Model()).retrievals != []
      ensures var p, s := old(Model()), old(reader.Unread());
        var r := Last(p.retrievals);
        if s == "" then Agrees(st, Need(p, s))
        else Follows(st, DataRound(WithLast(p, r.(bytesRemain := (r.bytesRemain + U32 - 1) % U32), p.fsm), s[1..]))
    {
      hide Reader.Valid, Reader.Unread, AllLive, Views, LineViews, DataRound, WithLast;
      var err := reader.SkipBytes(1);
      if err != RetOk {
        return Stop(err);
      }
      CountDown();
      st := ReadData();
    }

    method ValueState() returns (st: Status)
      requires Valid() && retrievals != []
      modifies `fsm, `retrievals, reader`cursor, reader`refs, reader`readLeft, reader`live
      ensures Kept()
      ensures Follows(st, ValueRound(old(Model()), old(reader.Unread())))
    {
      hide Reader.Valid, Reader.Unread, AllLive, Views, LineViews, DataRound;
      var kv := Last(retrievals);
      ViewsLast(reader.blocks, retrievals, kv);
      if kv.bytesRemain == (kv.bytes + 1) % U32 {
        st := SkipLineFeed();
      } else {
        st := ReadData();
      }
    }

    method LineState(next: Fsm) returns (st: Status)
      requires Valid() && lines != []
      modifies `fsm, `lines, reader`cursor, reader`refs, reader`readLeft, reader`live
      ensures Kept()
      ensures Agrees(st, LineRound(old(Model()), old(reader.Unread()), next))
    {
      hide Reader.Valid, Reader.Unread, AllLive, Views, LineViews, Until;
      var err, n, token := ReadWord(reader, '\n');
      if err != RetOk {
        LineViewsLast(reader.blocks, lines, Line([], 0));
        LivePushLine(retrievals, lines, reader.live, Line([], 0));
        lines := SetLast(lines, Line([], 0));
        return Stop(err);
      }
      LineViewsLast(reader.blocks, lines, Line(token, n));
      LiveMore(retrievals, lines, old(reader.live), token);
      LivePushLine(retrievals, lines, reader.live, Line(token, n));
      lines := SetLast(lines, Line(token, n));
      fsm := next;
      st := Going;
    }

    method IncrState() returns (st: Status)
      requires Valid() && counters != []
      modifies `fsm, `counters, reader`cursor, reader`refs, reader`readLeft
      ensures Kept()
      ensures Agrees(st, IncrRound(old(Model()), old(reader.Unread())))
    {
      hide Reader.Valid, Reader.Unread, AllLive, Views, LineViews, Unsigned;
      var err, value := ReadNumber(reader);
      counters := SetLast(counters, Last(counters).(value := value));
      if err != RetOk {
        return Stop(err);
      }
      if keys == [] {
        return Crashed;
      }
      counters := SetLast(counters, Counter(value, keys[0]));
      fsm := IncrDecrRemaining;
      st := Going;
    }

    method IncrRestState() returns (st: Status)
      requires Valid()
      modifies `fsm, `keys, reader`cursor, reader`refs, reader`readLeft
      ensures Kept()
      ensures Agrees(st, IncrRestRound(old(Model()), old(reader.Unread())))
    {
      hide Reader.Valid, Reader.Unread, AllLive, Views, LineViews;
      ghost var s := reader.Unread();
      var err, n := reader.SkipUntil('\n');
      if err != RetOk {
        return Stop(err);
      }
      assert s[n..][1..] == s[n + 1..];
      err := reader.SkipBytes(1);
      if keys == [] {
        return Crashed;
      }
      keys := keys[1..];
      fsm := Start;
      st := Going;
    }

    // -------------------------------------------------------------- the loop

    method OneRound() returns (st: Status)
      requires Valid()
      modifies this, reader`cursor, reader`refs, reader`readLeft, reader`live
      ensures Kept()
      ensures Follows(st, Round(old(Model()), old(reader.Unread())))
    {
      hide Reader.Valid, Reader.Unread, AllLive, Views, LineViews, StartRound, KeyRound, FlagRound, BytesRound,
        CasRound, ValueRound, LineRound, IncrRound, IncrRestRound;
      match fsm
      case Start => st := StartState();
      case GetStart => if retrievals == [] { st := Crashed; } else { st := KeyState(); }
      case GetKey => if retrievals == [] { st := Crashed; } else { st := FlagsState(); }
      case GetFlag => if retrievals == [] { st := Crashed; } else { st := BytesState(); }
      case GetBytesCas => if retrievals == [] { st := Crashed; } else { st := CasState(); }
      case GetValueRemaining => if retrievals == [] { st := Crashed; } else { st := ValueState(); }
      case VerStart => if lines == [] { st := Crashed; } else { st := LineState(End); }
      case StatStart => if lines == [] { st := Crashed; } else { st := LineState(Start); }
      case IncrDecrStart => if counters == [] { st := Crashed; } else { st := IncrState(); }
      case IncrDecrRemaining => st := IncrRestState();
      case End => st := Spinning;
      case Error => st := Spinning;
    }

    /** process_packets; it returns without an error once everything asked for has been received. */
    method ProcessPackets() returns (st: Status)
      requires Valid()
      modifies this, reader`cursor, reader`refs, reader`readLeft, reader`live
      ensures Kept()
      ensures Follows(st, Process(old(Model()), old(reader.Unread())))
    {
      hide Reader.Valid, Reader.Unread, AllLive, Views, LineViews, Round, Run;
      if fsm in {End, Error} {
        fsm := Start;
      }
      ghost var p, s := Model(), reader.Unread();
      while !(if mode == EndState then fsm in {End, Error} else keys == [])
        invariant Valid() && Run(Model(), reader.Unread()) == Run(p, s)
        decreases |reader.Unread()|, Rank(fsm)
      {
        RunRound(Model(), reader.Unread());
        ghost var r := Round(Model(), reader.Unread());
        st := OneRound();
        if st != Going {
          AbortedRun(st, r);
          return;
        }
      }
      Ended(Model(), reader.Unread());
      st := Going;
    }

    lemma AbortedRun(st: Status, r: Outcome<string>)
      requires Follows(st, r) && st != Going
      ensures Follows(st, if r.Go? then Run(r.p, r.rest) else r)
    {
      hide Run, Views, LineViews, TextOf, Join, Reader.Valid, Reader.Unread;
      if Aborted(st, r) && r.Go? {
        var kv := Last(retrievals);
        RunKeyed(r.p, r.rest, |retrievals| - 1, TextOf(reader.blocks, kv.key), kv.keyLen);
      }
    }

    static lemma Ended(p: Parser<string>, s: string)
      requires CanEnd(p)
      ensures Run(p, s) == Go(p, s)
    {}

    // -------------------------------------------------------------- a stream in pieces

    /** A piece arrives: no block that holds a result is taken for it, so every result reads as before. */
    method Store(piece: string)
      requires Valid()
      modifies reader
      ensures Valid() && Model() == old(Model()) && reader.Unread() == old(reader.Unread()) + piece
    {
      hide AllLive, Views, LineViews;
      ghost var before, live := reader.blocks, reader.live;
      reader.Write(piece);
      ViewsGrow(before, reader.blocks, retrievals, lines, live);
    }

    /** The next piece: it is parsed if the last call asked for more. */
    method ReceiveOne(last: Status, piece: string, ghost r: Outcome<string>) returns (st: Status)
      requires Kept() && Follows(last, r) && !Given(last)
      modifies this, reader
      ensures Kept() && Follows(st, FeedOne(r, piece))
    {
      hide Reader.Valid, Reader.Unread, AllLive, Views, LineViews, Process, Join, TextOf;
      st := last;
      if last in {Going, Stop(Incomplete)} {
        Store(piece);
        if last == Stop(Incomplete) {
          st := ProcessPackets();
        }
      } else if Aborted(last, r) {
        FedKeyed(r, piece, |retrievals| - 1, TextOf(reader.blocks, Last(retrievals).key), Last(retrievals).keyLen);
      }
    }

    /** A call has failed: the connection is marked dead and receives no more. */
    static predicate Given(st: Status) {
      st.Stop? && st.err != Incomplete
    }

    /**
     * Everything that arrives on the connection, piece by piece; after a failure, in the piece before
     * piece `n`, nothing.
     */
    method ReceiveAll(pieces: seq<string>) returns (st: Status, n: nat)
      requires Valid() && reader.Unread() == ""
      modifies this, reader
      ensures Kept() && n <= |pieces| && Follows(st, Feed(old(Model()), pieces[..n]))
      ensures n < |pieces| ==>
        var r := Feed(old(Model()), pieces[..n]);
        r.Fail? && Feed(old(Model()), pieces) == Later(r, Concat(pieces[n..]))
    {
      ghost var p := Model();
      st, n := Stop(Incomplete), 0;
      Nothing(st, p);
      hide Follows, AllLive, Reader.Valid, Reader.Unread, Views, LineViews;
      assert pieces[..0] == [];
      while n < |pieces| && !Given(st)
        invariant n <= |pieces| && Kept() && Follows(st, Feed(p, pieces[..n]))
      {
        assert pieces[..n + 1][..n] == pieces[..n];
        st := ReceiveOne(st, pieces[n], Feed(p, pieces[..n]));
        n := n + 1;
      }
      if n < |pieces| {
        GivenFails(st, Feed(p, pieces[..n]));
        FedAfter(p, pieces, n);
      }
    }

    lemma GivenFails(st: Status, r: Outcome<string>)
      requires Follows(st, r) && Given(st)
      ensures r.Fail?
    {
      hide Reader.Valid, Reader.Unread, Views, LineViews, Join, TextOf;
    }

    lemma Nothing(st: Status, p: Parser<string>)
      requires Valid() && reader.Unread() == "" && p == Model() && st == Stop(Incomplete)
      ensures Follows(st, Feed(p, []))
    {}

    /** A get reply in pieces that tear no value: the tokens read as the items sent, whatever blocks they lie in. */
    method ReceiveItems(pieces: seq<string>, ghost items: seq<Item>, ghost t: string) returns (st: Status)
      requires Valid() && reader.Unread() == "" && GetReply(Model(), items) && WholeKeys(Model().retrievals)
      requires pieces != [] && Concat(pieces) == EncodeAll(items) + t && NoTear(items, pieces)
      modifies this, reader
      ensures Valid() && st == Going && fsm == End && reader.Unread() == t
      ensures Views(reader.blocks, retrievals) == old(Views(reader.blocks, retrievals)) + ParsedAll(items)
    {
      ItemsReceived(Model(), items, t, pieces);
      ghost var p := Model();
      hide *;
      var n;
      st, n := ReceiveAll(pieces);
      AllReceived(p, pieces, items, t, n);
      NotAborted(st, p, items, t);
      Completed(st, p, items, t);
    }

    static lemma AllReceived(p: Parser<string>, pieces: seq<string>, items: seq<Item>, t: string, n: nat)
      requires n <= |pieces| && Feed(p, pieces) == Received(p, items, t)
      requires n < |pieces| ==>
        Feed(p, pieces[..n]).Fail? && Feed(p, pieces) == Later(Feed(p, pieces[..n]), Concat(pieces[n..]))
      ensures pieces[..n] == pieces
    {}

    lemma NotAborted(st: Status, p: Parser<string>, items: seq<Item>, t: string)
      requires WholeKeys(p.retrievals) && Follows(st, Received(p, items, t))
      ensures Agrees(st, Received(p, items, t))
    {
      hide Agrees, ParsedAll, Views, LineViews, TextOf;
      AllWhole(items);
      WholeConcat(p.retrievals, ParsedAll(items));
    }

    lemma Completed(st: Status, p: Parser<string>, items: seq<Item>, t: string)
      requires Kept() && Agrees(st, Received(p, items, t))
      ensures Valid() && st == Going && fsm == End && reader.Unread() == t
      ensures Views(reader.blocks, retrievals) == p.retrievals + ParsedAll(items)
    {
      hide ParsedAll, Views, LineViews, AllLive, Reader.Valid, Reader.Unread;
    }
  }

  /** The length of every key is what its 8-bit field says. */
  ghost predicate WholeKeys(rs: seq<Retrieval<string>>) {
    forall l :: 0 <= l < |rs| ==> rs[l].keyLen == |rs[l].key|
  }

  lemma WholeConcat(a: seq<Retrieval<string>>, b: seq<Retrieval<string>>)
    requires WholeKeys(a) && WholeKeys(b)
    ensures WholeKeys(a + b)
  {}

  lemma {:induction false} AllWhole(items: seq<Item>)
    ensures WholeKeys(ParsedAll(items))
  {
    if items != [] {
      AllWhole(items[1..]);
    }
  }
}
