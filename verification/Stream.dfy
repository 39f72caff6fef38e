/** The unread bytes as one flat queue, and the blocks that hold them. */
module Stream {
  datatype Code = RetOk | Incomplete | Programming | ServerError

  predicate Digit(c: char) {
    '0' <= c <= '9'
  }

  /** What a search through the bytes looks for. */
  datatype Scan = ForChar(c: char) | ForNonDigit

  predicate Stops(scan: Scan, c: char) {
    match scan
    case ForChar(d) => c == d
    case ForNonDigit => !Digit(c)
  }

  /** Where the first character that stops a scan is, or the length. */
  function First(s: string, scan: Scan): (r: nat)
    ensures r <= |s|
  {
    if s == "" || Stops(scan, s[0]) then 0 else 1 + First(s[1..], scan)
  }

  lemma {:induction false} FirstStops(s: string, scan: Scan)
    ensures First(s, scan) < |s| ==> Stops(scan, s[First(s, scan)])
    ensures forall i :: 0 <= i < First(s, scan) ==> !Stops(scan, s[i])
  {
    if s != "" && !Stops(scan, s[0]) {
      FirstStops(s[1..], scan);
    }
  }

  lemma {:induction false} FirstConcat(s: string, t: string, scan: Scan)
    ensures First(s + t, scan) == if First(s, scan) < |s| then First(s, scan) else |s| + First(t, scan)
  {
    if s == "" {
      assert s + t == t;
    } else {
      assert (s + t)[1..] == s[1..] + t;
      FirstConcat(s[1..], t, scan);
    }
  }

  predicate Digits(s: string) {
    forall i :: 0 <= i < |s| ==> Digit(s[i])
  }

  /** Digits as an unsigned 64-bit number. */
  function Number(s: string): (r: nat)
    requires Digits(s)
    ensures r < U64
  {
    if s == "" then 0
    else
      assert Digit(s[|s| - 1]);
      WithDigit(Number(s[..|s| - 1]), s[|s| - 1])
  }

  /** A 64-bit number with one more digit, with wrap-around. */
  function WithDigit(n: nat, c: char): (r: nat)
    requires Digit(c)
    ensures r < U64
  {
    (n * 10 + (c - '0') as nat) % U64
  }

  lemma NumberPush(s: string, c: char)
    requires Digits(s) && Digit(c)
    ensures Digits(s + [c]) && Number(s + [c]) == WithDigit(Number(s), c)
  {
    assert (s + [c])[..|s|] == s;
  }

  const U64: nat := 0x1_0000_0000_0000_0000

  function Decimal(n: nat): (r: string)
    ensures r != "" && Digits(r)
  {
    if n < 10 then [n as char + '0'] else Decimal(n / 10) + [(n % 10) as char + '0']
  }

  /** Wrapping around before a multiplication or after it makes no difference. */
  lemma Wraps(m: nat, d: nat)
    ensures (m % U64 * 10 + d) % U64 == (m * 10 + d) % U64
  {
    var q, r := m / U64, m % U64;
    assert m * 10 + d == (r * 10 + d) + 10 * q * U64;
    Multiple(r * 10 + d, 10 * q);
  }

  lemma {:induction false} Multiple(x: nat, k: nat)
    ensures (x + k * U64) % U64 == x % U64
  {
    if k > 0 {
      Multiple(x, k - 1);
      assert x + k * U64 == (x + (k - 1) * U64) + U64;
    }
  }

  /** A decimal number is read back, modulo 2^64. */
  lemma {:induction false} NumberDecimal(n: nat)
    ensures Number(Decimal(n)) == n % 0x1_0000_0000_0000_0000
  {
    var c := (n % 10) as char + '0';
    if n < 10 {
      NumberPush("", c);
      assert "" + [c] == Decimal(n);
    } else {
      NumberDecimal(n / 10);
      NumberPush(Decimal(n / 10), c);
      hide Number;
      Wraps(n / 10, n % 10);
      assert n / 10 * 10 + n % 10 == n;
    }
  }

  lemma {:induction false} FirstAt(s: string, c: char, rest: string, scan: Scan)
    requires Stops(scan, c) && forall i :: 0 <= i < |s| ==> !Stops(scan, s[i])
    ensures First(s + [c] + rest, scan) == |s|
  {
    FirstNone(s, scan);
    FirstConcat(s, [c] + rest, scan);
    assert s + [c] + rest == s + ([c] + rest);
  }

  lemma {:induction false} FirstNone(s: string, scan: Scan)
    requires forall i :: 0 <= i < |s| ==> !Stops(scan, s[i])
    ensures First(s, scan) == |s|
  {
    if s != "" {
      FirstNone(s[1..], scan);
    }
  }

  // ---------------------------------------------------------------- blocks

  datatype DataBlock = DataBlock(data: string, capacity: nat)

  datatype Cursor = Cursor(block: nat, offset: nat)

  /** Part of one block; a token is a list of them. */
  datatype Slice = Slice(block: nat, offset: nat, size: nat)
  type TokenData = seq<Slice>

  /** Everything from offset `off` of block `b` on. */
  function Flat(blocks: seq<DataBlock>, b: nat, off: nat): string
    requires b <= |blocks| && (b < |blocks| ==> off <= |blocks[b].data|)
    decreases |blocks| - b
  {
    if b == |blocks| then "" else blocks[b].data[off..] + Flat(blocks, b + 1, 0)
  }

  predicate InRange(blocks: seq<DataBlock>, s: Slice) {
    s.block < |blocks| && s.offset + s.size <= |blocks[s.block].data|
  }

  function SliceText(blocks: seq<DataBlock>, s: Slice): string
    requires InRange(blocks, s)
  {
    blocks[s.block].data[s.offset..s.offset + s.size]
  }

  predicate TokenInRange(blocks: seq<DataBlock>, t: TokenData) {
    forall i :: 0 <= i < |t| ==> InRange(blocks, t[i])
  }

  /** The bytes a token stands for. */
  function Text(blocks: seq<DataBlock>, t: TokenData): (r: string)
    requires TokenInRange(blocks, t)
    ensures t == [] ==> r == ""
  {
    if t == [] then "" else Text(blocks, t[..|t| - 1]) + SliceText(blocks, t[|t| - 1])
  }

  /** Only the last block may be empty. */
  ghost predicate Filled(blocks: seq<DataBlock>) {
    forall i :: 0 <= i < |blocks| - 1 ==> blocks[i].data != ""
  }

  lemma FlatSkip(blocks: seq<DataBlock>, b: nat, off: nat, n: nat)
    requires b < |blocks| && off + n <= |blocks[b].data|
    ensures |Flat(blocks, b, off)| >= n
    ensures Flat(blocks, b, off)[..n] == blocks[b].data[off..off + n]
    ensures Flat(blocks, b, off)[n..] == Flat(blocks, b, off + n)
  {
    var d, rest := blocks[b].data, Flat(blocks, b + 1, 0);
    assert Flat(blocks, b, off) == d[off..] + rest && Flat(blocks, b, off + n) == d[off + n..] + rest;
    hide Flat;
    Skipped(d, rest, off, n);
  }

  lemma Skipped(d: string, rest: string, off: nat, n: nat)
    requires off + n <= |d|
    ensures (d[off..] + rest)[..n] == d[off..off + n] && (d[off..] + rest)[n..] == d[off + n..] + rest
  {}

  lemma FlatEnd(blocks: seq<DataBlock>, off: nat)
    ensures Flat(blocks, |blocks|, off) == ""
  {}

  lemma FlatNext(blocks: seq<DataBlock>, b: nat)
    requires b < |blocks|
    ensures Flat(blocks, b, |blocks[b].data|) == Flat(blocks, b + 1, 0)
  {}

  /** A scan of everything from a position on is a scan of its block, and then of the rest. */
  lemma FirstInBlock(blocks: seq<DataBlock>, b: nat, off: nat, scan: Scan)
    requires b < |blocks| && off <= |blocks[b].data|
    ensures var rest := blocks[b].data[off..];
      First(Flat(blocks, b, off), scan)
      == if First(rest, scan) < |rest| then First(rest, scan) else |rest| + First(Flat(blocks, b + 1, 0), scan)
  {
    FirstConcat(blocks[b].data[off..], Flat(blocks, b + 1, 0), scan);
  }

  lemma AtChar(blocks: seq<DataBlock>, b: nat)
    requires Filled(blocks) && b <= |blocks| && Flat(blocks, b, 0) != ""
    ensures b < |blocks| && blocks[b].data != ""
  {
    if b == |blocks| - 1 {
      assert Flat(blocks, b + 1, 0) == "";
    }
  }

  predicate InBlocks(blocks: seq<DataBlock>, c: Cursor) {
    c.block <= |blocks| && c.offset <= if c.block < |blocks| then |blocks[c.block].data| else 0
  }

  predicate OnChar(blocks: seq<DataBlock>, c: Cursor) {
    c.block < |blocks| && c.offset < |blocks[c.block].data|
  }

  /** What is left to read at a cursor. */
  function From(blocks: seq<DataBlock>, c: Cursor): string
    requires InBlocks(blocks, c)
  {
    Flat(blocks, c.block, c.offset)
  }

  /** The cursor is on the next character, if there is one. */
  ghost predicate Ready(blocks: seq<DataBlock>, c: Cursor) {
    Filled(blocks) && InBlocks(blocks, c) && (From(blocks, c) != "" ==> OnChar(blocks, c))
  }

  /** Past `n` bytes of the current block, on to the next block when it ends there. */
  function Step(blocks: seq<DataBlock>, c: Cursor, n: nat): Cursor
    requires OnChar(blocks, c)
  {
    if c.offset + n < |blocks[c.block].data| then c.(offset := c.offset + n) else Cursor(c.block + 1, 0)
  }

  lemma StepFrom(blocks: seq<DataBlock>, c: Cursor, n: nat)
    requires Ready(blocks, c) && OnChar(blocks, c) && 0 < n <= |blocks[c.block].data| - c.offset
    ensures Ready(blocks, Step(blocks, c, n)) && n <= |From(blocks, c)|
    ensures InRange(blocks, Slice(c.block, c.offset, n))
    ensures SliceText(blocks, Slice(c.block, c.offset, n)) == From(blocks, c)[..n]
    ensures From(blocks, Step(blocks, c, n)) == From(blocks, c)[n..]
  {
    FlatSkip(blocks, c.block, c.offset, n);
    if c.offset + n == |blocks[c.block].data| {
      FlatNext(blocks, c.block);
      if Flat(blocks, c.block + 1, 0) != "" {
        AtChar(blocks, c.block + 1);
      }
    }
  }

  /** Cursor `end` is on a character, `k` bytes ahead of `c`. */
  ghost predicate Ahead(blocks: seq<DataBlock>, c: Cursor, end: Cursor, k: nat) {
    && InBlocks(blocks, c) && OnChar(blocks, end)
    && c.block <= end.block && (c.block == end.block ==> c.offset <= end.offset)
    && k < |From(blocks, c)| && From(blocks, end) == From(blocks, c)[k..]
  }

  /** How far a cursor goes towards another without leaving its block. */
  function Distance(blocks: seq<DataBlock>, c: Cursor, end: Cursor): int
    requires c.block < |blocks|
  {
    if c.block == end.block then end.offset - c.offset else |blocks[c.block].data| - c.offset
  }

  lemma Arrived(blocks: seq<DataBlock>, c: Cursor, k: nat)
    requires Ahead(blocks, c, c, k)
    ensures k == 0
  {}

  lemma {:induction false} FlatLater(blocks: seq<DataBlock>, a: nat, b: nat, o: nat)
    requires a <= b < |blocks| && o <= |blocks[b].data|
    ensures |Flat(blocks, b, o)| <= |Flat(blocks, a, 0)|
    decreases b - a
  {
    hide Flat;
    if a < b {
      FlatLater(blocks, a + 1, b, o);
      FlatSkip(blocks, a, 0, |blocks[a].data|);
      FlatNext(blocks, a);
    } else {
      FlatSkip(blocks, a, 0, o);
    }
  }

  /** Going that far gets the cursor closer and not past the other. */
  lemma Closer(blocks: seq<DataBlock>, c: Cursor, end: Cursor, k: nat)
    requires Ready(blocks, c) && Ahead(blocks, c, end, k) && c != end
    ensures OnChar(blocks, c)
    ensures var n := Distance(blocks, c, end);
      && 0 < n <= |blocks[c.block].data| - c.offset && n <= k
      && Ahead(blocks, Step(blocks, c, n), end, k - n)
  {
    hide Flat;
    var n, s := Distance(blocks, c, end), From(blocks, c);
    FlatSkip(blocks, c.block, c.offset, n);
    FlatNext(blocks, c.block);
    assert n <= k by {
      if c.block < end.block {
        FlatLater(blocks, c.block + 1, end.block, end.offset);
      }
    }
    assert s[n..][k - n..] == s[k..];
  }

  /** Text stays readable when blocks only grow. */
  ghost predicate Grows(a: seq<DataBlock>, b: seq<DataBlock>) {
    |a| <= |b| && forall i :: 0 <= i < |a| ==> a[i].data <= b[i].data
  }

  lemma {:induction false} TextGrows(a: seq<DataBlock>, b: seq<DataBlock>, t: TokenData)
    requires Grows(a, b) && TokenInRange(a, t)
    ensures TokenInRange(b, t) && Text(a, t) == Text(b, t)
  {
    if t != [] {
      TextGrows(a, b, t[..|t| - 1]);
      var s := t[|t| - 1];
      assert a[s.block].data <= b[s.block].data;
    }
  }

  /** Appending to the last block appends to everything that is read from before it. */
  lemma {:induction false} FlatAppend(blocks: seq<DataBlock>, b: nat, off: nat, more: string)
    requires b < |blocks| && off <= |blocks[b].data|
    ensures var l := |blocks| - 1;
      var grown := blocks[l := blocks[l].(data := blocks[l].data + more)];
      Flat(grown, b, off) == Flat(blocks, b, off) + more
    decreases |blocks| - b
  {
    var l := |blocks| - 1;
    var grown := blocks[l := blocks[l].(data := blocks[l].data + more)];
    if b < l {
      FlatAppend(blocks, b + 1, 0, more);
    } else {
      assert Flat(blocks, b + 1, 0) == "" && Flat(grown, b + 1, 0) == "";
      assert grown[l].data[off..] == blocks[l].data[off..] + more;
    }
  }

  lemma {:induction false} FlatNewBlock(blocks: seq<DataBlock>, b: nat, off: nat, capacity: nat)
    requires b < |blocks| && off <= |blocks[b].data|
    ensures Flat(blocks + [DataBlock("", capacity)], b, off) == Flat(blocks, b, off)
    decreases |blocks| - b
  {
    var more := blocks + [DataBlock("", capacity)];
    if b + 1 < |blocks| {
      FlatNewBlock(blocks, b + 1, 0, capacity);
    } else {
      assert Flat(more, b + 2, 0) == "" && Flat(more, b + 1, 0) == "";
    }
  }

  // ---------------------------------------------------------------- references

  /** The unread bytes of block `i`. */
  function Pending(blocks: seq<DataBlock>, c: Cursor, i: nat): int
    requires i < |blocks|
  {
    if i < c.block then 0 else if i == c.block then |blocks[i].data| - c.offset else |blocks[i].data|
  }

  function HeldBy(t: TokenData, i: nat): nat {
    if t == [] then 0
    else HeldBy(t[..|t| - 1], i) + if t[|t| - 1].block == i then t[|t| - 1].size else 0
  }

  /** How many bytes of block `i` the live tokens hold. */
  function Held(live: seq<TokenData>, i: nat): nat {
    if live == [] then 0 else Held(live[..|live| - 1], i) + HeldBy(live[|live| - 1], i)
  }

  lemma HeldPush(live: seq<TokenData>, t: TokenData, i: nat)
    ensures Held(live + [t], i) == Held(live, i) + HeldBy(t, i)
  {
    assert (live + [t])[..|live|] == live;
  }

  lemma HeldByPush(t: TokenData, s: Slice, i: nat)
    ensures HeldBy(t + [s], i) == HeldBy(t, i) + if s.block == i then s.size else 0
  {
    assert (t + [s])[..|t|] == t;
  }

  lemma {:induction false} HeldByPrefix(t: TokenData, j: nat, i: nat)
    requires j <= |t|
    ensures HeldBy(t[..j], i) <= HeldBy(t, i)
  {
    if j < |t| {
      HeldByPrefix(t[..|t| - 1], j, i);
      assert t[..|t| - 1][..j] == t[..j];
    } else {
      assert t[..j] == t;
    }
  }

  lemma {:induction false} HeldConcat(a: seq<TokenData>, b: seq<TokenData>, i: nat)
    ensures Held(a + b, i) == Held(a, i) + Held(b, i)
  {
    if b == [] {
      assert a + b == a;
    } else {
      assert (a + b)[..|a + b| - 1] == a + b[..|b| - 1];
      HeldConcat(a, b[..|b| - 1], i);
    }
  }

  lemma HeldWithout(live: seq<TokenData>, k: nat, i: nat)
    requires k < |live|
    ensures Held(live, i) == Held(live[..k] + live[k + 1..], i) + HeldBy(live[k], i)
  {
    assert live == (live[..k] + [live[k]]) + live[k + 1..];
    HeldConcat(live[..k] + [live[k]], live[k + 1..], i);
    HeldPush(live[..k], live[k], i);
    HeldConcat(live[..k], live[k + 1..], i);
  }

  lemma TextPush(blocks: seq<DataBlock>, t: TokenData, s: Slice)
    requires TokenInRange(blocks, t) && InRange(blocks, s)
    ensures TokenInRange(blocks, t + [s]) && Text(blocks, t + [s]) == Text(blocks, t) + SliceText(blocks, s)
  {
    assert (t + [s])[..|t|] == t;
  }
}
