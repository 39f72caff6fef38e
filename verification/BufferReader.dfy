/** The streaming reader: a list of blocks with a read cursor, a write position and reference counts. */
module BufferReader {
  import opened Stream

  const MIN_DATABLOCK_CAPACITY: nat := 8192

  // ---------------------------------------------------------------- the loops over blocks

  function Min(a: nat, b: nat): nat {
    if a < b then a else b
  }

  /** `c` has moved `n` bytes on to `d`. */
  ghost predicate Moved(blocks: seq<DataBlock>, c: Cursor, d: Cursor, n: nat) {
    && Ready(blocks, c) && Ready(blocks, d)
    && n <= |From(blocks, c)| && From(blocks, d) == From(blocks, c)[n..]
  }

  lemma MovedStep(blocks: seq<DataBlock>, c: Cursor, d: Cursor, m: nat, n: nat)
    requires Moved(blocks, c, d, m) && OnChar(blocks, d) && 0 < n <= |blocks[d.block].data| - d.offset
    ensures Moved(blocks, c, Step(blocks, d, n), m + n)
    ensures var s := Slice(d.block, d.offset, n);
      InRange(blocks, s) && From(blocks, c)[..m] + SliceText(blocks, s) == From(blocks, c)[..m + n]
  {
    hide Ready, From;
    StepFrom(blocks, d, n);
  }

  /** The token holds, in every block, what has been passed between `c` and `d`. */
  ghost predicate Holds(blocks: seq<DataBlock>, c: Cursor, d: Cursor, token: TokenData) {
    forall i :: 0 <= i < |blocks| ==> Pending(blocks, c, i) == Pending(blocks, d, i) + HeldBy(token, i)
  }

  /** `token` stands for the first `n` bytes at `c`, and the cursor has moved past them to `d`. */
  ghost predicate Taken(blocks: seq<DataBlock>, c: Cursor, d: Cursor, n: nat, token: TokenData) {
    && Moved(blocks, c, d, n) && Holds(blocks, c, d, token)
    && TokenInRange(blocks, token) && Text(blocks, token) == From(blocks, c)[..n]
  }

  lemma TakenStep(blocks: seq<DataBlock>, c: Cursor, d: Cursor, m: nat, token: TokenData, n: nat)
    requires Taken(blocks, c, d, m, token) && OnChar(blocks, d) && 0 < n <= |blocks[d.block].data| - d.offset
    ensures Taken(blocks, c, Step(blocks, d, n), m + n, token + [Slice(d.block, d.offset, n)])
  {
    var s := Slice(d.block, d.offset, n);
    MovedStep(blocks, c, d, m, n);
    TextPush(blocks, token, s);
    forall i | 0 <= i < |blocks|
      ensures Pending(blocks, c, i) == Pending(blocks, Step(blocks, d, n), i) + HeldBy(token + [s], i)
    {
      HeldByPush(token, s, i);
    }
    hide Moved, Text, HeldBy, Pending, From;
  }

  /** Every block's count covers its unread bytes. */
  ghost predicate Covered(blocks: seq<DataBlock>, c: Cursor, refs: seq<nat>) {
    |refs| == |blocks| && forall i :: 0 <= i < |blocks| ==> refs[i] >= Pending(blocks, c, i)
  }

  /** The bytes passed between `c` and `d` have been released. */
  ghost predicate Released(blocks: seq<DataBlock>, c: Cursor, d: Cursor, before: seq<nat>, after: seq<nat>) {
    && |before| == |after| == |blocks|
    && forall i :: 0 <= i < |blocks| ==> before[i] + Pending(blocks, d, i) == after[i] + Pending(blocks, c, i)
  }

  /** The cursor has moved from `c` to `d` past `n` bytes and let them go. */
  ghost predicate Dropped(blocks: seq<DataBlock>, c: Cursor, d: Cursor, n: nat, before: seq<nat>, after: seq<nat>) {
    Moved(blocks, c, d, n) && Covered(blocks, c, before) && Released(blocks, c, d, before, after)
  }

  lemma DroppedStep(blocks: seq<DataBlock>, c: Cursor, d: Cursor, m: nat, before: seq<nat>, refs: seq<nat>, n: nat)
    requires Dropped(blocks, c, d, m, before, refs)
    requires OnChar(blocks, d) && 0 < n <= |blocks[d.block].data| - d.offset
    ensures d.block < |refs| && refs[d.block] >= n
    ensures Dropped(blocks, c, Step(blocks, d, n), m + n, before, refs[d.block := refs[d.block] - n])
    ensures m + n <= |From(blocks, c)|
    ensures From(blocks, c)[..m] + blocks[d.block].data[d.offset..d.offset + n] == From(blocks, c)[..m + n]
  {
    MovedStep(blocks, c, d, m, n);
    hide Moved;
    assert refs[d.block] >= Pending(blocks, d, d.block);
  }

  /** The loop of readBytes. */
  method TakeBytes(blocks: seq<DataBlock>, c: Cursor, len: nat) returns (d: Cursor, token: TokenData)
    requires Ready(blocks, c) && len <= |From(blocks, c)|
    ensures Taken(blocks, c, d, len, token)
  {
    d, token := c, [];
    var left := len;
    while left > 0
      invariant 0 <= left <= len && Taken(blocks, c, d, len - left, token)
    {
      var n := Min(left, |blocks[d.block].data| - d.offset);
      TakenStep(blocks, c, d, len - left, token, n);
      token := token + [Slice(d.block, d.offset, n)];
      d := Step(blocks, d, n);
      left := left - n;
    }
  }

  /** The loop of skipBytes. */
  method DropBytes(blocks: seq<DataBlock>, c: Cursor, before: seq<nat>, len: nat) returns (d: Cursor, refs: seq<nat>)
    requires Ready(blocks, c) && Covered(blocks, c, before) && len <= |From(blocks, c)|
    ensures Dropped(blocks, c, d, len, before, refs)
  {
    d, refs := c, before;
    var left := len;
    while left > 0
      invariant 0 <= left <= len && Dropped(blocks, c, d, len - left, before, refs)
    {
      var n := Min(left, |blocks[d.block].data| - d.offset);
      DroppedStep(blocks, c, d, len - left, before, refs, n);
      refs := refs[d.block := refs[d.block] - n];
      d := Step(blocks, d, n);
      left := left - n;
    }
  }

  /** One comparison of expectBytes. */
  lemma Compared(blocks: seq<DataBlock>, c: Cursor, d: Cursor, pos: nat, str: string, n: nat)
    requires Moved(blocks, c, d, pos) && OnChar(blocks, d) && 0 < n <= |blocks[d.block].data| - d.offset
    requires pos + n <= |str| <= |From(blocks, c)| && str[..pos] == From(blocks, c)[..pos]
    ensures blocks[d.block].data[d.offset..d.offset + n] == str[pos..pos + n]
      <==> str[..pos + n] == From(blocks, c)[..pos + n]
    ensures str <= From(blocks, c) ==> str[..pos + n] == From(blocks, c)[..pos + n]
  {
    MovedStep(blocks, c, d, pos, n);
    var s := From(blocks, c);
    hide Moved, Ready, From;
    assert str[..pos + n] == str[..pos] + str[pos..pos + n];
    assert s[..pos + n][pos..] == blocks[d.block].data[d.offset..d.offset + n];
    assert str[..pos + n][pos..] == str[pos..pos + n];
    if str <= s {
      assert s[..|str|][..pos + n] == s[..pos + n];
    }
  }

  /** The loop of expectBytes: stops in between at the first difference. */
  method MatchBytes(blocks: seq<DataBlock>, c: Cursor, before: seq<nat>, str: string)
    returns (ok: bool, d: Cursor, refs: seq<nat>)
    requires Ready(blocks, c) && Covered(blocks, c, before) && |str| <= |From(blocks, c)|
    ensures ok <==> str <= From(blocks, c)
    ensures ok ==> Dropped(blocks, c, d, |str|, before, refs)
    ensures !ok ==> exists n :: 0 <= n < |str| && Moved(blocks, c, d, n)
    ensures |refs| == |blocks|
  {
    ok, d, refs := true, c, before;
    var pos := 0;
    hide From;
    while pos < |str|
      invariant 0 <= pos <= |str| && Dropped(blocks, c, d, pos, before, refs) && str[..pos] == From(blocks, c)[..pos]
    {
      OnNext(blocks, c, d, pos);
      var n := Min(|str| - pos, |blocks[d.block].data| - d.offset);
      Compared(blocks, c, d, pos, str, n);
      if blocks[d.block].data[d.offset..d.offset + n] != str[pos..pos + n] {
        return false, d, refs;
      }
      DroppedStep(blocks, c, d, pos, before, refs, n);
      refs := refs[d.block := refs[d.block] - n];
      d := Step(blocks, d, n);
      pos := pos + n;
    }
  }

  lemma OnNext(blocks: seq<DataBlock>, c: Cursor, d: Cursor, n: nat)
    requires Moved(blocks, c, d, n) && n < |From(blocks, c)|
    ensures OnChar(blocks, d)
  {}

  /** The loop of peek. */
  method CharAt(blocks: seq<DataBlock>, c: Cursor, offset: nat, writeBlock: nat) returns (r: char)
    requires Ready(blocks, c) && offset < |From(blocks, c)| && |blocks| - 1 <= writeBlock
    ensures r == From(blocks, c)[offset]
  {
    var d, left := c, offset;
    hide From, Ready;
    OnNext(blocks, c, d, 0);
    while left > 0
      invariant 0 <= left <= offset && Moved(blocks, c, d, offset - left) && OnChar(blocks, d)
    {
      var rest := |blocks[d.block].data| - d.offset;
      if left < rest {
        MovedStep(blocks, c, d, offset - left, left);
        d, left := d.(offset := d.offset + left), 0;
      } else {
        MovedStep(blocks, c, d, offset - left, rest);
        OnNext(blocks, c, Step(blocks, d, rest), offset - left + rest);
        assert d.block != writeBlock;
        d, left := Cursor(d.block + 1, 0), left - rest;
      }
    }
    MovedStep(blocks, c, d, offset, 1);
    r := blocks[d.block].data[d.offset];
  }

  /** The block at `d` is scanned: the scan stops in it, or goes on with the next one. */
  lemma Scanned(blocks: seq<DataBlock>, d: Cursor, scan: Scan)
    requires InBlocks(blocks, d) && d.block < |blocks|
    ensures var n, pos := |blocks[d.block].data| - d.offset, First(blocks[d.block].data[d.offset..], scan);
      if pos < n then
        && First(From(blocks, d), scan) == pos < |From(blocks, d)|
        && From(blocks, d.(offset := d.offset + pos)) == From(blocks, d)[pos..]
      else
        var e := Cursor(d.block + 1, 0);
        && First(From(blocks, d), scan) == n + First(From(blocks, e), scan)
        && n <= |From(blocks, d)| && From(blocks, e) == From(blocks, d)[n..]
  {
    hide Flat, First;
    var data := blocks[d.block].data;
    var n, pos := |data| - d.offset, First(data[d.offset..], scan);
    FirstInBlock(blocks, d.block, d.offset, scan);
    if pos < n {
      FlatSkip(blocks, d.block, d.offset, pos);
      FlatSkip(blocks, d.block, d.offset, pos + 1);
    } else {
      FlatSkip(blocks, d.block, d.offset, n);
      FlatNext(blocks, d.block);
    }
  }

  /** `c` is `k` bytes behind `d`, and no character in between stops the scan. */
  ghost predicate Scanning(blocks: seq<DataBlock>, c: Cursor, d: Cursor, k: nat, scan: Scan) {
    && InBlocks(blocks, c) && InBlocks(blocks, d) && c.block <= d.block && (c.block == d.block ==> c.offset <= d.offset)
    && k <= |From(blocks, c)| && From(blocks, d) == From(blocks, c)[k..]
    && First(From(blocks, c), scan) == k + First(From(blocks, d), scan)
  }

  lemma ScanEnds(blocks: seq<DataBlock>, c: Cursor, d: Cursor, k: nat, scan: Scan)
    requires Scanning(blocks, c, d, k, scan) && d.block < |blocks|
    requires First(blocks[d.block].data[d.offset..], scan) < |blocks[d.block].data| - d.offset
    ensures var pos := First(blocks[d.block].data[d.offset..], scan);
      && First(From(blocks, c), scan) == k + pos < |From(blocks, c)|
      && Ahead(blocks, c, d.(offset := d.offset + pos), k + pos)
  {
    hide From, First;
    Scanned(blocks, d, scan);
    var s, pos := From(blocks, c), First(blocks[d.block].data[d.offset..], scan);
    assert s[k..][pos..] == s[k + pos..];
  }

  lemma ScanGoesOn(blocks: seq<DataBlock>, c: Cursor, d: Cursor, k: nat, scan: Scan)
    requires Scanning(blocks, c, d, k, scan) && d.block < |blocks|
    requires First(blocks[d.block].data[d.offset..], scan) >= |blocks[d.block].data| - d.offset
    ensures Scanning(blocks, c, Cursor(d.block + 1, 0), k + |blocks[d.block].data| - d.offset, scan)
  {
    hide From, First;
    Scanned(blocks, d, scan);
    var s, n := From(blocks, c), |blocks[d.block].data| - d.offset;
    assert s[k..][n..] == s[k + n..];
  }

  lemma ScanningStep(blocks: seq<DataBlock>, c: Cursor, d: Cursor, k: nat, scan: Scan)
    requires Scanning(blocks, c, d, k, scan) && d.block < |blocks|
    ensures var n, pos := |blocks[d.block].data| - d.offset, First(blocks[d.block].data[d.offset..], scan);
      if pos < n then
        && First(From(blocks, c), scan) == k + pos < |From(blocks, c)|
        && Ahead(blocks, c, d.(offset := d.offset + pos), k + pos)
      else Scanning(blocks, c, Cursor(d.block + 1, 0), k + n, scan)
  {
    assert InBlocks(blocks, d);
    hide From, First, Scanning, Ahead;
    if First(blocks[d.block].data[d.offset..], scan) < |blocks[d.block].data| - d.offset {
      ScanEnds(blocks, c, d, k, scan);
    } else {
      ScanGoesOn(blocks, c, d, k, scan);
    }
  }

  /** The first loop of the scans: the position of the first character that stops them. */
  method Locate(blocks: seq<DataBlock>, c: Cursor, scan: Scan) returns (end: Cursor)
    requires Ready(blocks, c)
    ensures end.block <= |blocks|
    ensures var k := First(From(blocks, c), scan);
      && (end.block == |blocks| ==> k == |From(blocks, c)|)
      && (end.block < |blocks| ==> k < |From(blocks, c)| && Ahead(blocks, c, end, k))
  {
    hide First, Ahead, From, Ready, Scanning;
    end := c;
    ghost var k := 0;
    ScanStarts(blocks, c, scan);
    while end.block < |blocks|
      invariant 0 <= k && InBlocks(blocks, end) && Scanning(blocks, c, end, k, scan)
    {
      var pos := First(blocks[end.block].data[end.offset..], scan);
      ScanningStep(blocks, c, end, k, scan);
      if end.offset + pos != |blocks[end.block].data| {
        end := end.(offset := end.offset + pos);
        return;
      }
      k := k + pos;
      end := Cursor(end.block + 1, 0);
    }
    ScannedAll(blocks, c, end, k, scan);
  }

  lemma ScanStarts(blocks: seq<DataBlock>, c: Cursor, scan: Scan)
    requires Ready(blocks, c)
    ensures InBlocks(blocks, c) && Scanning(blocks, c, c, 0, scan)
  {}

  lemma ScannedAll(blocks: seq<DataBlock>, c: Cursor, end: Cursor, k: nat, scan: Scan)
    requires Scanning(blocks, c, end, k, scan) && end.block == |blocks|
    ensures InBlocks(blocks, c) && First(From(blocks, c), scan) == |From(blocks, c)|
  {
    hide First, From;
    NothingAtEnd(blocks, end, scan);
  }

  lemma NothingAtEnd(blocks: seq<DataBlock>, end: Cursor, scan: Scan)
    requires end.block == |blocks| && InBlocks(blocks, end)
    ensures From(blocks, end) == "" && First(From(blocks, end), scan) == 0
  {}

  // ---------------------------------------------------------------- the second loops of the scans

  lemma Start(blocks: seq<DataBlock>, c: Cursor, refs: seq<nat>)
    requires Ready(blocks, c)
    ensures Taken(blocks, c, c, 0, [])
    ensures Covered(blocks, c, refs) ==> Dropped(blocks, c, c, 0, refs, refs)
  {}

  /** The second loop of readUntil: everything before `end` becomes a token. */
  method TakeTo(blocks: seq<DataBlock>, c: Cursor, end: Cursor, ghost k: nat) returns (nSize: nat, token: TokenData)
    requires Ready(blocks, c) && Ahead(blocks, c, end, k)
    ensures nSize == k && Taken(blocks, c, end, k, token)
  {
    nSize, token := 0, [];
    var d := c;
    Start(blocks, c, []);
    hide Ready, Ahead, Holds, From, Text, Distance, Step;
    while d != end
      invariant nSize <= k && Taken(blocks, c, d, nSize, token) && Ahead(blocks, d, end, k - nSize)
      decreases k - nSize
    {
      Closer(blocks, d, end, k - nSize);
      var n := Distance(blocks, d, end);
      TakenStep(blocks, c, d, nSize, token, n);
      token := token + [Slice(d.block, d.offset, n)];
      d := Step(blocks, d, n);
      nSize := nSize + n;
    }
    Arrived(blocks, d, k - nSize);
  }

  /** The second loop of skipUntil. */
  method DropTo(blocks: seq<DataBlock>, c: Cursor, before: seq<nat>, end: Cursor, ghost k: nat)
    returns (nSize: nat, refs: seq<nat>)
    requires Ready(blocks, c) && Covered(blocks, c, before) && Ahead(blocks, c, end, k)
    ensures nSize == k && Dropped(blocks, c, end, k, before, refs)
  {
    nSize, refs := 0, before;
    var d := c;
    Start(blocks, c, before);
    hide Ready, Ahead, Covered, Released, From, Distance, Step;
    while d != end
      invariant nSize <= k && Dropped(blocks, c, d, nSize, before, refs) && Ahead(blocks, d, end, k - nSize)
      decreases k - nSize
    {
      Closer(blocks, d, end, k - nSize);
      var n := Distance(blocks, d, end);
      DroppedStep(blocks, c, d, nSize, before, refs, n);
      refs := refs[d.block := refs[d.block] - n];
      d := Step(blocks, d, n);
      nSize := nSize + n;
    }
    Arrived(blocks, d, k - nSize);
  }

  /** The inner loop of readUnsigned. */
  method AddDigits(value: nat, ghost front: string, digits: string) returns (r: nat)
    requires Digits(front) && Digits(digits) && value == Number(front)
    ensures Digits(front + digits) && r == Number(front + digits)
  {
    r := value;
    assert front + digits[..0] == front;
    for j := 0 to |digits|
      invariant Digits(front + digits[..j]) && r == Number(front + digits[..j])
    {
      hide Number, WithDigit;
      assert front + digits[..j + 1] == front + digits[..j] + [digits[j]];
      NumberPush(front + digits[..j], digits[j]);
      r := WithDigit(r, digits[j]);
    }
    assert digits[..|digits|] == digits;
  }

  /** The digits between `c` and `d` have been let go and added up. */
  ghost predicate Summing(blocks: seq<DataBlock>, c: Cursor, d: Cursor, n: nat, before: seq<nat>, refs: seq<nat>,
                          value: nat) {
    && Dropped(blocks, c, d, n, before, refs)
    && Digits(From(blocks, c)[..n]) && value == Number(From(blocks, c)[..n])
  }

  lemma NothingSummed(blocks: seq<DataBlock>, c: Cursor, before: seq<nat>)
    requires Ready(blocks, c) && Covered(blocks, c, before)
    ensures Summing(blocks, c, c, 0, before, before, 0)
  {
    Start(blocks, c, before);
  }

  lemma AllSummed(blocks: seq<DataBlock>, c: Cursor, d: Cursor, n: nat, before: seq<nat>, refs: seq<nat>, value: nat)
    requires Summing(blocks, c, d, n, before, refs, value)
    ensures Ready(blocks, d) && Dropped(blocks, c, d, n, before, refs) && Digits(From(blocks, c)[..n])
    ensures value == Number(From(blocks, c)[..n])
  {}

  /** One round of the second loop of readUnsigned. */
  method DropDigits(blocks: seq<DataBlock>, ghost c: Cursor, d: Cursor, m: nat, ghost before: seq<nat>,
                    refs: seq<nat>, value: nat, n: nat, ghost k: nat) returns (after: seq<nat>, sum: nat)
    requires Summing(blocks, c, d, m, before, refs, value)
    requires OnChar(blocks, d) && 0 < n <= |blocks[d.block].data| - d.offset
    requires m + n <= k <= |From(blocks, c)| && Digits(From(blocks, c)[..k])
    ensures Summing(blocks, c, Step(blocks, d, n), m + n, before, after, sum)
  {
    DroppedStep(blocks, c, d, m, before, refs, n);
    hide Dropped, From, Number, Digits;
    var digits := blocks[d.block].data[d.offset..d.offset + n];
    Piece(From(blocks, c), k, m, n, digits);
    sum := AddDigits(value, From(blocks, c)[..m], digits);
    after := refs[d.block := refs[d.block] - n];
  }

  /** The second loop of readUnsigned. */
  method DropNumber(blocks: seq<DataBlock>, c: Cursor, before: seq<nat>, end: Cursor, ghost k: nat)
    returns (nSize: nat, refs: seq<nat>, value: nat)
    requires Ready(blocks, c) && Covered(blocks, c, before) && Ahead(blocks, c, end, k)
    requires Digits(From(blocks, c)[..k])
    ensures nSize == k && Dropped(blocks, c, end, k, before, refs)
    ensures value == Number(From(blocks, c)[..k])
  {
    hide From, Number, Digits, Covered, Ready, Distance, Step, Summing, Dropped;
    nSize, refs, value := 0, before, 0;
    var d := c;
    NothingSummed(blocks, c, before);
    while d != end
      invariant nSize <= k && Summing(blocks, c, d, nSize, before, refs, value) && Ahead(blocks, d, end, k - nSize)
      decreases k - nSize
    {
      AllSummed(blocks, c, d, nSize, before, refs, value);
      Closer(blocks, d, end, k - nSize);
      var n := Distance(blocks, d, end);
      refs, value := DropDigits(blocks, c, d, nSize, before, refs, value, n, k);
      d := Step(blocks, d, n);
      nSize := nSize + n;
    }
    Arrived(blocks, d, k - nSize);
    AllSummed(blocks, c, d, k, before, refs, value);
  }

  lemma Piece(s: string, k: nat, m: nat, n: nat, digits: string)
    requires m + n <= k <= |s| && Digits(s[..k]) && s[..m] + digits == s[..m + n]
    ensures Digits(digits)
  {
    forall i | 0 <= i < |digits|
      ensures Digit(digits[i])
    {
      assert digits[i] == s[..m + n][m + i] == s[..k][m + i];
    }
  }

  // ---------------------------------------------------------------- reference counts

  /** Each block's count is its unread bytes plus the bytes that live tokens hold. */
  ghost predicate Counted(blocks: seq<DataBlock>, c: Cursor, refs: seq<nat>, live: seq<TokenData>) {
    |refs| == |blocks| && forall i :: 0 <= i < |blocks| ==> refs[i] == Pending(blocks, c, i) + Held(live, i)
  }

  ghost predicate LiveInRange(blocks: seq<DataBlock>, live: seq<TokenData>) {
    forall k :: 0 <= k < |live| ==> TokenInRange(blocks, live[k])
  }

  lemma CountedTaken(blocks: seq<DataBlock>, c: Cursor, d: Cursor, n: nat, refs: seq<nat>, live: seq<TokenData>,
                     token: TokenData)
    requires Counted(blocks, c, refs, live) && Taken(blocks, c, d, n, token)
    ensures Counted(blocks, d, refs, live + [token])
  {
    forall i | 0 <= i < |blocks|
      ensures refs[i] == Pending(blocks, d, i) + Held(live + [token], i)
    {
      HeldPush(live, token, i);
    }
  }

  lemma CountedDropped(blocks: seq<DataBlock>, c: Cursor, d: Cursor, n: nat, before: seq<nat>, refs: seq<nat>,
                       live: seq<TokenData>)
    requires Counted(blocks, c, before, live) && Dropped(blocks, c, d, n, before, refs)
    ensures Counted(blocks, d, refs, live)
  {}

  /** Nothing is unread: no block has pending bytes. */
  lemma {:induction false} NothingPending(blocks: seq<DataBlock>, c: Cursor, i: nat)
    requires InBlocks(blocks, c) && From(blocks, c) == "" && c.block <= i < |blocks|
    ensures Pending(blocks, c, i) == 0
    decreases i - c.block
  {
    if c.block < i {
      NothingPending(blocks, Cursor(c.block + 1, 0), i);
    }
  }

  /** With nothing unread the cursor may go to the end of the last block. */
  lemma Rewound(blocks: seq<DataBlock>, c: Cursor, refs: seq<nat>, live: seq<TokenData>)
    requires |blocks| > 0 && Filled(blocks) && InBlocks(blocks, c) && From(blocks, c) == ""
    requires Counted(blocks, c, refs, live)
    ensures var d := Cursor(|blocks| - 1, |blocks[|blocks| - 1].data|);
      Ready(blocks, d) && From(blocks, d) == "" && Counted(blocks, d, refs, live)
  {
    forall i | 0 <= i < |blocks|
      ensures Pending(blocks, c, i) == 0
    {
      if i >= c.block {
        NothingPending(blocks, c, i);
      }
    }
    FlatNext(blocks, |blocks| - 1);
    FlatEnd(blocks, 0);
  }

  lemma {:induction false} NothingHeld(blocks: seq<DataBlock>, live: seq<TokenData>, i: nat)
    requires LiveInRange(blocks, live) && i >= |blocks|
    ensures Held(live, i) == 0
  {
    if live != [] {
      NothingHeld(blocks, live[..|live| - 1], i);
      NothingHeldBy(blocks, live[|live| - 1], i);
    }
  }

  lemma {:induction false} NothingHeldBy(blocks: seq<DataBlock>, t: TokenData, i: nat)
    requires TokenInRange(blocks, t) && i >= |blocks|
    ensures HeldBy(t, i) == 0
  {
    if t != [] {
      NothingHeldBy(blocks, t[..|t| - 1], i);
    }
  }

  /** A new block changes nothing that is unread or held. */
  lemma BlockAdded(blocks: seq<DataBlock>, c: Cursor, refs: seq<nat>, live: seq<TokenData>, capacity: nat)
    requires Ready(blocks, c) && Counted(blocks, c, refs, live) && LiveInRange(blocks, live)
    requires forall i :: 0 <= i < |blocks| ==> blocks[i].data != ""
    ensures var more := blocks + [DataBlock("", capacity)];
      && Filled(more) && InBlocks(more, c) && From(more, c) == From(blocks, c)
      && Counted(more, c, refs + [0], live) && LiveInRange(more, live)
  {
    var more := blocks + [DataBlock("", capacity)];
    NothingHeld(blocks, live, |blocks|);
    if c.block < |blocks| {
      FlatNewBlock(blocks, c.block, c.offset, capacity);
    } else {
      FlatEnd(blocks, 0);
      FlatEnd(more, 0);
    }
    hide Flat, Held;
  }

  /** Received bytes are unread and counted. */
  lemma BytesAdded(blocks: seq<DataBlock>, c: Cursor, refs: seq<nat>, live: seq<TokenData>, bytes: string)
    requires Ready(blocks, c) && Counted(blocks, c, refs, live) && LiveInRange(blocks, live) && c.block < |blocks|
    requires From(blocks, c) == "" ==> c == Cursor(|blocks| - 1, |blocks[|blocks| - 1].data|)
    ensures var w := |blocks| - 1;
      var more := blocks[w := blocks[w].(data := blocks[w].data + bytes)];
      && Ready(more, c) && From(more, c) == From(blocks, c) + bytes
      && Counted(more, c, refs[w := refs[w] + |bytes|], live) && LiveInRange(more, live)
  {
    FlatAppend(blocks, c.block, c.offset, bytes);
    hide Flat, Held;
  }

  /** The first `j` slices of a token have been let go, all others and `rest` are held. */
  ghost predicate Freeing(blocks: seq<DataBlock>, c: Cursor, refs: seq<nat>, rest: seq<TokenData>, td: TokenData,
                          j: nat)
    requires j <= |td|
  {
    && |refs| == |blocks|
    && forall i :: 0 <= i < |blocks| ==>
         refs[i] + HeldBy(td[..j], i) == Pending(blocks, c, i) + Held(rest, i) + HeldBy(td, i)
  }

  lemma StartFree(blocks: seq<DataBlock>, c: Cursor, refs: seq<nat>, live: seq<TokenData>, k: nat)
    requires Counted(blocks, c, refs, live) && k < |live|
    ensures Freeing(blocks, c, refs, live[..k] + live[k + 1..], live[k], 0)
  {
    forall i | 0 <= i < |blocks|
      ensures refs[i] == Pending(blocks, c, i) + Held(live[..k] + live[k + 1..], i) + HeldBy(live[k], i)
    {
      HeldWithout(live, k, i);
    }
  }

  lemma FreeOne(blocks: seq<DataBlock>, c: Cursor, refs: seq<nat>, rest: seq<TokenData>, td: TokenData, j: nat)
    requires j < |td| && Freeing(blocks, c, refs, rest, td, j) && TokenInRange(blocks, td) && InBlocks(blocks, c)
    ensures var s := td[j];
      && s.block < |refs| && refs[s.block] >= s.size
      && Freeing(blocks, c, refs[s.block := refs[s.block] - s.size], rest, td, j + 1)
  {
    var s := td[j];
    assert td[..j + 1] == td[..j] + [s];
    assert InRange(blocks, s);
    HeldByPrefix(td, j + 1, s.block);
    forall i | 0 <= i < |blocks|
      ensures HeldBy(td[..j + 1], i) == HeldBy(td[..j], i) + if s.block == i then s.size else 0
    {
      HeldByPush(td[..j], s, i);
    }
    hide HeldBy, Held;
  }

  lemma AllFreed(blocks: seq<DataBlock>, c: Cursor, refs: seq<nat>, rest: seq<TokenData>, td: TokenData)
    requires Freeing(blocks, c, refs, rest, td, |td|)
    ensures Counted(blocks, c, refs, rest)
  {
    assert td[..|td|] == td;
  }

  lemma CopyOne(blocks: seq<DataBlock>, c: Cursor, refs: seq<nat>, live: seq<TokenData>, td: TokenData, j: nat)
    requires j < |td| && Counted(blocks, c, refs, live + [td[..j]]) && TokenInRange(blocks, td)
    ensures var s := td[j];
      s.block < |refs| && Counted(blocks, c, refs[s.block := refs[s.block] + s.size], live + [td[..j + 1]])
  {
    var s := td[j];
    assert td[..j + 1] == td[..j] + [s] && InRange(blocks, s);
    forall i | 0 <= i < |blocks|
      ensures Held(live + [td[..j + 1]], i) == Held(live + [td[..j]], i) + if s.block == i then s.size else 0
    {
      HeldPush(live, td[..j], i);
      HeldPush(live, td[..j + 1], i);
      HeldByPush(td[..j], s, i);
    }
    hide HeldBy, Held;
  }

  lemma StartCopy(blocks: seq<DataBlock>, c: Cursor, refs: seq<nat>, live: seq<TokenData>)
    requires Counted(blocks, c, refs, live)
    ensures Counted(blocks, c, refs, live + [[]])
  {
    forall i | 0 <= i < |blocks|
      ensures Held(live + [[]], i) == Held(live, i)
    {
      HeldPush(live, [], i);
    }
  }

  // ---------------------------------------------------------------- a token as one piece of text

  /** What parseTokenData gives: no text, a text, or a failed assertion. */
  datatype Joining = GivenUp | Joined(text: string) | Failed

  /** A token of one slice must have the reserved length; a longer one of several is given up. */
  function Join(text: string, slices: nat, reserved: nat): Joining {
    if reserved == 0 then GivenUp
    else if |text| == reserved then Joined(text)
    else if slices == 1 || |text| < reserved then Failed
    else GivenUp
  }

  lemma {:induction false} TextPrefix(blocks: seq<DataBlock>, t: TokenData, i: nat)
    requires TokenInRange(blocks, t) && i <= |t|
    ensures |Text(blocks, t[..i])| <= |Text(blocks, t)|
    decreases |t|
  {
    if i < |t| {
      TextPrefix(blocks, t[..|t| - 1], i);
      assert t[..|t| - 1][..i] == t[..i];
    } else {
      assert t[..i] == t;
    }
  }

  /** parseTokenData. */
  method ParseTokenData(blocks: seq<DataBlock>, td: TokenData, reserved: nat) returns (r: Joining)
    requires TokenInRange(blocks, td)
    ensures r == Join(Text(blocks, td), |td|, reserved)
  {
    if reserved == 0 {
      return GivenUp;
    }
    if |td| == 1 {
      assert td[..0] == [] && Text(blocks, []) == "";
      var text := SliceText(blocks, td[0]);
      assert Text(blocks, td) == "" + text;
      return if td[0].size == reserved then Joined(text) else Failed;
    }
    var ptr := "";
    for i := 0 to |td|
      invariant ptr == Text(blocks, td[..i]) && |ptr| <= reserved
    {
      assert td[..i + 1][..i] == td[..i];
      TextPrefix(blocks, td, i + 1);
      if |ptr| + td[i].size > reserved {
        return GivenUp;
      }
      ptr := ptr + SliceText(blocks, td[i]);
    }
    assert td[..|td|] == td;
    r := if |ptr| == reserved then Joined(ptr) else Failed;
  }

  /**
   * The length of a key is kept in eight bits. The assertion on a key that was read fails if and only
   * if the key is longer than that, its length is not a multiple of 256, and it lies in one block.
   */
  lemma KeyAborts(key: string, slices: nat)
    ensures Join(key, slices, |key| % 0x100).Failed? <==> |key| >= 0x100 && |key| % 0x100 != 0 && slices == 1
  {}

  class Reader {
    var blocks: seq<DataBlock>
    /** Bytes of each block that are unread or held by a token. */
    var refs: seq<nat>
    var cursor: Cursor
    var writeBlock: nat
    var readLeft: nat
    /** The tokens handed out and not yet freed. */
    ghost var live: seq<TokenData>

    ghost predicate Shape()
      reads this
    {
      && |blocks| - 1 <= writeBlock <= |blocks| && |refs| == |blocks|
      && (forall i :: 0 <= i < |blocks| ==> |blocks[i].data| <= blocks[i].capacity && blocks[i].capacity > 0)
      && (forall i :: 0 <= i < writeBlock ==> blocks[i].data != "")
      && LiveInRange(blocks, live)
    }

    ghost predicate Valid()
      reads this
    {
      && Shape() && Ready(blocks, cursor) && Counted(blocks, cursor, refs, live)
      && readLeft == |From(blocks, cursor)|
    }

    /** What has been received and not read. */
    ghost function Unread(): string
      reads this
      requires Valid()
    {
      From(blocks, cursor)
    }

    constructor ()
      ensures Valid() && Unread() == "" && live == [] && blocks == [] && writeBlock == 0
    {
      blocks, refs, live := [], [], [];
      cursor, writeBlock, readLeft := Cursor(0, 0), 0, 0;
    }

    // -------------------------------------------------------------- reading

    method Peek(offset: nat) returns (err: Code, c: char)
      requires Valid()
      ensures err == if offset < |Unread()| then RetOk else Incomplete
      ensures err == RetOk ==> c == Unread()[offset]
    {
      if offset >= readLeft {
        return Incomplete, '\0';
      }
      c := CharAt(blocks, cursor, offset, writeBlock);
      err := RetOk;
    }

    method ReadBytes(len: nat) returns (err: Code, token: TokenData)
      requires Valid()
      modifies `cursor, `readLeft, `live
      ensures Valid() && err == if len > |old(Unread())| then Incomplete else RetOk
      ensures err == Incomplete ==> Unread() == old(Unread()) && live == old(live) && token == []
      ensures err == RetOk ==>
        && TokenInRange(blocks, token) && Text(blocks, token) == old(Unread())[..len]
        && Unread() == old(Unread())[len..] && live == old(live) + [token]
    {
      if len > readLeft {
        return Incomplete, [];
      }
      hide From, Ready, Text;
      var d;
      d, token := TakeBytes(blocks, cursor, len);
      Take(d, len, token);
      err := RetOk;
    }

    /** Moves the cursor past a token. */
    method Take(d: Cursor, n: nat, token: TokenData)
      requires Valid() && Taken(blocks, cursor, d, n, token)
      modifies `cursor, `readLeft, `live
      ensures Valid() && Unread() == old(Unread())[n..] && live == old(live) + [token]
    {
      CountedTaken(blocks, cursor, d, n, refs, live, token);
      hide From, Ready, Text, Counted, Holds;
      cursor := d;
      readLeft := readLeft - n;
      live := live + [token];
    }

    /** Moves the cursor past bytes that are let go. */
    method Drop(d: Cursor, n: nat, after: seq<nat>)
      requires Valid() && Dropped(blocks, cursor, d, n, refs, after)
      modifies `cursor, `readLeft, `refs
      ensures Valid() && Unread() == old(Unread())[n..]
    {
      CountedDropped(blocks, cursor, d, n, refs, after, live);
      hide From, Ready, Counted, Covered;
      cursor := d;
      readLeft := readLeft - n;
      refs := after;
    }

    method SkipBytes(len: nat) returns (err: Code)
      requires Valid() && len > 0
      modifies `cursor, `refs, `readLeft
      ensures Valid() && err == if len > |old(Unread())| then Incomplete else RetOk
      ensures Unread() == if err == Incomplete then old(Unread()) else old(Unread())[len..]
    {
      if len > readLeft {
        return Incomplete;
      }
      var d, after := DropBytes(blocks, cursor, refs, len);
      Drop(d, len, after);
      err := RetOk;
    }

    /** On a mismatch the reader is left in between and has to be reset. */
    method ExpectBytes(str: string) returns (err: Code)
      requires Valid() && str != "" && '\0' !in str
      modifies `cursor, `refs, `readLeft
      ensures Shape()
      ensures err == if |str| > |old(Unread())| then Incomplete
                     else if str <= old(Unread()) then RetOk else Programming
      ensures err == Incomplete ==> Valid() && Unread() == old(Unread())
      ensures err == RetOk ==> Valid() && Unread() == old(Unread())[|str|..]
      ensures err == Programming ==>
        && !Valid() && Ready(blocks, cursor) && readLeft == |old(Unread())| - |str| < |From(blocks, cursor)|
        && exists n :: 0 <= n < |str| && From(blocks, cursor) == old(Unread())[n..]
    {
      if |str| > readLeft {
        return Incomplete;
      }
      var ok, d, after := MatchBytes(blocks, cursor, refs, str);
      if ok {
        Drop(d, |str|, after);
        return RetOk;
      }
      readLeft := readLeft - |str|;
      cursor, refs := d, after;
      err := Programming;
    }

    method ReadUntil(value: char) returns (err: Code, nSize: nat, token: TokenData)
      requires Valid()
      modifies `cursor, `readLeft, `live
      ensures Valid()
      ensures var s, k := old(Unread()), First(old(Unread()), ForChar(value));
        if k == |s| then err == Incomplete && Unread() == s && live == old(live)
        else
          && err == RetOk && nSize == k && Unread() == s[k..] && live == old(live) + [token]
          && TokenInRange(blocks, token) && Text(blocks, token) == s[..k]
    {
      ghost var k := First(Unread(), ForChar(value));
      var end := Locate(blocks, cursor, ForChar(value));
      if end.block == |blocks| {
        return Incomplete, 0, [];
      }
      hide First, Text, Ready;
      nSize, token := TakeTo(blocks, cursor, end, k);
      Take(end, nSize, token);
      err := RetOk;
    }

    method SkipUntil(value: char) returns (err: Code, nSize: nat)
      requires Valid()
      modifies `cursor, `refs, `readLeft
      ensures Valid()
      ensures var s, k := old(Unread()), First(old(Unread()), ForChar(value));
        if k == |s| then err == Incomplete && Unread() == s
        else err == RetOk && nSize == k && Unread() == s[k..]
    {
      ghost var k := First(Unread(), ForChar(value));
      var end := Locate(blocks, cursor, ForChar(value));
      if end.block == |blocks| {
        return Incomplete, 0;
      }
      hide First, Ready;
      var after;
      nSize, after := DropTo(blocks, cursor, refs, end, k);
      Drop(end, nSize, after);
      err := RetOk;
    }

    method ReadUnsigned() returns (err: Code, value: nat)
      requires Valid()
      modifies `cursor, `refs, `readLeft
      ensures Valid()
      ensures var s := old(Unread());
        var k := First(s, ForNonDigit);
        if |s| < 2 then err == Incomplete && Unread() == s && value == 0
        else if k == 0 then err == Programming && Unread() == s && value == 0
        else if k == |s| then err == Incomplete && Unread() == s && value == 0
        else err == RetOk && Unread() == s[k..] && Digits(s[..k]) && value == Number(s[..k])
    {
      value := 0;
      if readLeft < 2 {
        return Incomplete, 0;
      }
      ghost var s, k := Unread(), First(Unread(), ForNonDigit);
      var end := Locate(blocks, cursor, ForNonDigit);
      Front(s);
      if end == cursor {
        Arrived(blocks, cursor, k);
        return Programming, 0;
      }
      if end.block == |blocks| {
        return Incomplete, 0;
      }
      assert k != 0 by { Closer(blocks, cursor, end, k); }
      hide First, Ready;
      var nSize, after;
      nSize, after, value := DropNumber(blocks, cursor, refs, end, k);
      Drop(end, nSize, after);
      err := RetOk;
    }

    static lemma Front(s: string)
      ensures Digits(s[..First(s, ForNonDigit)])
    {
      FirstStops(s, ForNonDigit);
    }

    // -------------------------------------------------------------- writing

    /** A write block with room is at hand, and the cursor is there if nothing is unread. */
    ghost predicate Prepared()
      reads this
      requires Valid()
    {
      && writeBlock < |blocks| && |blocks[writeBlock].data| < blocks[writeBlock].capacity
      && (Unread() == "" ==> cursor == Cursor(writeBlock, |blocks[writeBlock].data|))
    }

    method NewBlock(capacity: nat)
      requires Valid() && writeBlock == |blocks| && capacity > 0
      modifies `blocks, `refs
      ensures Valid() && Unread() == old(Unread())
      ensures blocks == old(blocks) + [DataBlock("", capacity)]
    {
      BlockAdded(blocks, cursor, refs, live, capacity);
      hide From, Counted;
      blocks, refs := blocks + [DataBlock("", capacity)], refs + [0];
    }

    method Rewind()
      requires Valid() && readLeft == 0 && writeBlock == |blocks| - 1
      modifies `cursor
      ensures Valid() && Unread() == old(Unread()) && cursor == Cursor(writeBlock, |blocks[writeBlock].data|)
    {
      Rewound(blocks, cursor, refs, live);
      hide From, Counted;
      cursor := Cursor(writeBlock, |blocks[writeBlock].data|);
    }

    /** Finds or makes a block to receive into. */
    method PrepareWriteBlock(len: nat) returns (available: nat)
      requires Valid()
      modifies `blocks, `refs, `writeBlock, `cursor
      ensures Valid() && Prepared() && Unread() == old(Unread())
      ensures Grows(old(blocks), blocks)
      ensures var w := old(writeBlock);
        var full := w < |old(blocks)| && |old(blocks)[w].data| == old(blocks)[w].capacity;
        && writeBlock == (if full then w + 1 else w)
        && var capacity := if len < MIN_DATABLOCK_CAPACITY then MIN_DATABLOCK_CAPACITY else len;
           blocks == if writeBlock < |old(blocks)| then old(blocks) else old(blocks) + [DataBlock("", capacity)]
      ensures available == Min(len, blocks[writeBlock].capacity - |blocks[writeBlock].data|)
    {
      hide From, Ready, Counted;
      if writeBlock < |blocks| && |blocks[writeBlock].data| == blocks[writeBlock].capacity {
        writeBlock := writeBlock + 1;
      }
      if writeBlock == |blocks| {
        NewBlock(if len < MIN_DATABLOCK_CAPACITY then MIN_DATABLOCK_CAPACITY else len);
      }
      if readLeft == 0 {
        Rewind();
      }
      available := Min(len, blocks[writeBlock].capacity - |blocks[writeBlock].data|);
    }

    /** The next write goes behind a block that still has room, and that block gets nothing any more. */
    ghost predicate LeftWithRoom(w: nat)
      reads this
    {
      w < |blocks| && w < writeBlock && |blocks[w].data| < blocks[w].capacity
    }

    /**
     * Adds the received bytes to the write block. The test for a full block counts them twice: a block
     * is left with room if and only if the bytes would fit exactly a second time.
     */
    method CommitWrite(bytes: string)
      requires Valid() && Prepared()
      requires |blocks[writeBlock].data| + |bytes| <= blocks[writeBlock].capacity
      modifies `blocks, `refs, `writeBlock, `readLeft
      ensures Valid() && Unread() == old(Unread()) + bytes
      ensures Grows(old(blocks), blocks)
      ensures var w, was := old(writeBlock), old(blocks)[old(writeBlock)];
        && blocks == old(blocks)[w := was.(data := was.data + bytes)]
        && (LeftWithRoom(w) <==> bytes != "" && |was.data| + 2 * |bytes| == was.capacity)
    {
      var w := writeBlock;
      BytesAdded(blocks, cursor, refs, live, bytes);
      blocks := blocks[w := blocks[w].(data := blocks[w].data + bytes)];
      refs := refs[w := refs[w] + |bytes|];
      if |blocks[w].data| + |bytes| == blocks[w].capacity {
        writeBlock := writeBlock + 1;
      }
      readLeft := readLeft + |bytes|;
    }

    /** Receives bytes, block by block. */
    method Write(bytes: string)
      requires Valid()
      modifies this
      ensures Valid() && Unread() == old(Unread()) + bytes && live == old(live)
      ensures Grows(old(blocks), blocks)
    {
      hide Valid, Unread;
      var copied := 0;
      assert bytes[..0] == "";
      while copied < |bytes|
        invariant 0 <= copied <= |bytes| && Valid() && live == old(live) && Grows(old(blocks), blocks)
        invariant Unread() == old(Unread()) + bytes[..copied]
      {
        var n := PrepareWriteBlock(|bytes| - copied);
        assert bytes[..copied + n] == bytes[..copied] + bytes[copied..copied + n];
        CommitWrite(bytes[copied..copied + n]);
        copied := copied + n;
      }
      assert bytes[..copied] == bytes;
    }

    // -------------------------------------------------------------- tokens

    /** freeTokenData on live token `k`: its bytes are let go. */
    method FreeTokenData(ghost k: nat, td: TokenData)
      requires Valid() && k < |live| && td == live[k]
      modifies `refs, `live
      ensures Valid() && Unread() == old(Unread()) && live == old(live)[..k] + old(live)[k + 1..]
    {
      ghost var rest := live[..k] + live[k + 1..];
      StartFree(blocks, cursor, refs, live, k);
      hide Counted, Freeing, From, Ready;
      var j := 0;
      while j < |td|
        invariant 0 <= j <= |td| && Freeing(blocks, cursor, refs, rest, td, j) && |refs| == |blocks|
      {
        FreeOne(blocks, cursor, refs, rest, td, j);
        refs := refs[td[j].block := refs[td[j].block] - td[j].size];
        j := j + 1;
      }
      AllFreed(blocks, cursor, refs, rest, td);
      live := rest;
    }

    /** copyTokenData: the copy is as live as the original. */
    method CopyTokenData(td: TokenData) returns (copy: TokenData)
      requires Valid() && TokenInRange(blocks, td)
      modifies `refs, `live
      ensures Valid() && Unread() == old(Unread()) && live == old(live) + [td] && copy == td
    {
      copy := td;
      var j := 0;
      StartCopy(blocks, cursor, refs, live);
      assert td[..0] == [];
      hide Counted, From, Ready;
      while j < |td|
        invariant 0 <= j <= |td| && Counted(blocks, cursor, refs, live + [td[..j]]) && |refs| == |blocks|
        invariant live == old(live)
      {
        CopyOne(blocks, cursor, refs, live, td, j);
        refs := refs[td[j].block := refs[td[j].block] + td[j].size];
        j := j + 1;
      }
      assert td[..j] == td;
      live := live + [td];
    }

    /** Everything but the first block is thrown away, and all tokens with it. */
    method Reset()
      requires Shape()
      modifies this
      ensures Valid() && Unread() == "" && live == []
    {
      blocks := if |blocks| > 0 then [blocks[0].(data := "")] else [];
      refs := if |refs| > 0 then [0] else [];
      live := [];
      readLeft, writeBlock, cursor := 0, 0, Cursor(0, 0);
      FlatEnd(blocks, 0);
    }
  }

  /** Half a block of bytes leaves the other half unused. */
  method HalfABlock() returns (reader: Reader)
    ensures fresh(reader) && reader.Valid() && reader.LeftWithRoom(0)
    ensures |reader.Unread()| == MIN_DATABLOCK_CAPACITY / 2
  {
    reader := new Reader();
    hide Reader.Valid, Reader.Unread;
    var available := reader.PrepareWriteBlock(MIN_DATABLOCK_CAPACITY);
    reader.CommitWrite(seq(MIN_DATABLOCK_CAPACITY / 2, _ => 'a'));
  }
}
