/** The two streaming implementations: whatever the pieces, the digest of the whole message. */
module Md5Stream {
  import opened Arithmetic
  import opened Md5
  import opened Wrappers

  // ---------------------------------------------------------------- a message cut into blocks

  /** How much of a message of `n` bytes is whole blocks. */
  function Whole(n: nat): (r: nat)
    ensures r <= n < r + 64 && r % 64 == 0
  {
    n - n % 64
  }

  lemma BlocksPush(w: Words, s: seq<byte>, b: seq<byte>)
    requires |s| % 64 == 0 && |b| == 64
    ensures |s + b| % 64 == 0 && Blocks(w, s + b) == Block(Blocks(w, s), b)
  {
    assert (s + b)[..|s + b| - 64] == s && (s + b)[|s + b| - 64..] == b;
  }

  /** The chaining words and the buffer after the message `m`. */
  ghost predicate Digested(abcd: Words, buf: seq<byte>, m: seq<byte>) {
    && |buf| == 64
    && abcd == Blocks(INITIAL, m[..Whole(|m|)])
    && buf[..|m| % 64] == m[Whole(|m|)..]
  }

  /** `s` is what has been processed and `p` what is left of the message. */
  ghost predicate Processed(abcd: Words, m: seq<byte>, s: seq<byte>, p: seq<byte>) {
    |s| % 64 == 0 && m == s + p && abcd == Blocks(INITIAL, s)
  }

  lemma ProcessedBlock(abcd: Words, m: seq<byte>, s: seq<byte>, p: seq<byte>)
    requires Processed(abcd, m, s, p) && |p| >= 64
    ensures Processed(Block(abcd, p[..64]), m, s + p[..64], p[64..])
  {
    hide Blocks, Block;
    BlocksPush(INITIAL, s, p[..64]);
    assert m == (s + p[..64]) + p[64..];
  }

  lemma Remainder(s: nat, p: nat)
    requires s % 64 == 0 && p < 64
    ensures (s + p) % 64 == p && Whole(s + p) == s
  {}

  lemma ProcessedAll(abcd: Words, buf: seq<byte>, m: seq<byte>, s: seq<byte>, p: seq<byte>)
    requires Processed(abcd, m, s, p) && |p| < 64 && |buf| == 64 && buf[..|p|] == p
    ensures Digested(abcd, buf, m)
  {
    hide Blocks, Whole;
    Remainder(|s|, |p|);
    assert m[..|s|] == s && m[|s|..] == p;
  }

  lemma Begun(abcd: Words, buf: seq<byte>, m: seq<byte>, data: seq<byte>)
    requires Digested(abcd, buf, m)
    ensures Processed(abcd, m + data, m[..Whole(|m|)], buf[..|m| % 64] + data)
  {
    hide Blocks;
    assert m + data == m[..Whole(|m|)] + (m[Whole(|m|)..] + data);
  }

  // ---------------------------------------------------------------- counting bits

  const TWO28: nat := 0x1000_0000
  const TWO29: nat := 0x2000_0000

  lemma Successor(q: nat)
    ensures (q + 1) % TWO32 == (q % TWO32 + 1) % TWO32
  {}

  /** The proxy counts bits in two words. */
  lemma BitsAdded(n: nat, k: nat)
    requires k < TWO28
    ensures var low := (Low(n) + 8 * k) % TWO32;
      && low == Low(n + k)
      && High(n + k) == (High(n) + if low < 8 * k then 1 else 0) % TWO32
  {
    var q, r := 8 * n / TWO32, 8 * n % TWO32;
    assert 8 * (n + k) == q * TWO32 + (r + 8 * k);
    if r + 8 * k < TWO32 {
      Quotient(8 * (n + k), TWO32, q, r + 8 * k);
    } else {
      Quotient(8 * (n + k), TWO32, q + 1, r + 8 * k - TWO32);
      Successor(q);
    }
  }

  /** The bytes counted, as far as the low word goes. */
  lemma LowBytes(n: nat)
    ensures Low(n) / 8 == n % TWO29 && Low(n) < TWO32
  {
    var q, r := n / TWO29, n % TWO29;
    assert 8 * n == q * TWO32 + 8 * r;
    Quotient(8 * n, TWO32, q, 8 * r);
  }

  /** Where in the buffer the next byte goes, and how far it is to byte 56 of a block. */
  lemma ProxyOffset(n: nat)
    ensures Low(n) / 8 % 64 == n % 64
    ensures (55 - Low(n) / 8) % 64 == (55 - n) % 64
  {
    LowBytes(n);
    var q, r := n / TWO29, n % TWO29;
    assert n == r + 64 * (q * 0x80_0000);
    Modulo64(r, q * 0x80_0000);
    Modulo64(55 - n, q * 0x80_0000);
  }

  // ---------------------------------------------------------------- the proxy's implementation

  const PAD: seq<byte> := [0x80] + Zeros(63)

  lemma PadPrefix(n: nat, k: nat)
    requires k == (55 - n) % 64 + 1
    ensures PAD[..k] == Padding(n)
  {}

  lemma PadLength(n: nat, k: nat)
    requires k == if n % 64 < 56 then 56 - n % 64 else 120 - n % 64
    ensures k == (55 - n) % 64 + 1
  {
    var q, r := n / 64, n % 64;
    Modulo64(55 - n, q);
  }

  /** memcpy into a buffer. */
  method Copy(buf: array<byte>, offset: nat, data: seq<byte>)
    requires offset + |data| <= buf.Length
    modifies buf
    ensures buf[..] == old(buf[..offset]) + data + old(buf[offset + |data|..])
  {
    forall i | 0 <= i < |data| {
      buf[offset + i] := data[i];
    }
  }

  class ProxyMd5 {
    /** The length in bits, the low word first. */
    var count0: nat
    var count1: nat
    var abcd: Words
    const buf: array<byte>

    ghost predicate Counted(n: nat)
      reads this
    {
      count0 == Low(n) && count1 == High(n)
    }

    /** The state after the message `m`. */
    ghost predicate Holds(m: seq<byte>)
      reads this, buf
    {
      Counted(|m|) && Digested(abcd, buf[..], m)
    }

    constructor ()
      ensures Holds([]) && fresh(buf)
    {
      count0, count1, abcd := 0, 0, INITIAL;
      buf := new byte[64];
    }

    method Count(ghost n: nat, nbytes: nat)
      requires Counted(n) && nbytes < TWO28
      modifies `count0, `count1
      ensures Counted(n + nbytes)
    {
      BitsAdded(n, nbytes);
      var nbits := 8 * nbytes;
      count1 := (count1 + nbytes / TWO29) % TWO32;
      count0 := (count0 + nbits) % TWO32;
      if count0 < nbits {
        count1 := (count1 + 1) % TWO32;
      }
    }

    /** The full blocks of `p`, and the rest into the buffer. */
    method Absorb(ghost m: seq<byte>, ghost s: seq<byte>, p: seq<byte>)
      requires Processed(abcd, m, s, p) && buf.Length == 64
      modifies `abcd, buf
      ensures Digested(abcd, buf[..], m)
    {
      hide Block, Blocks, Processed;
      var left := p;
      ghost var done := s;
      while |left| >= 64
        invariant Processed(abcd, m, done, left)
        decreases |left|
      {
        ProcessedBlock(abcd, m, done, left);
        abcd := ProxyProcess(abcd, left[..64]);
        done := done + left[..64];
        left := left[64..];
      }
      Copy(buf, 0, left);
      assert buf[..][..|left|] == left;
      ProcessedAll(abcd, buf[..], m, done, left);
    }

    method Append(ghost m: seq<byte>, data: seq<byte>)
      requires Holds(m) && |data| < TWO28
      modifies this, buf
      ensures Holds(m + data)
    {
      hide Block, Blocks, Low, High;
      if data == [] {
        assert m + data == m;
        return;
      }
      ProxyOffset(|m|);
      var offset := count0 / 8 % 64;
      Begun(abcd, buf[..], m, data);
      ghost var s := m[..Whole(|m|)];
      Count(|m|, |data|);
      if offset == 0 {
        assert buf[..][..0] + data == data;
        Absorb(m + data, s, data);
      } else {
        var copy := if offset + |data| > 64 then 64 - offset else |data|;
        Copy(buf, offset, data[..copy]);
        Buffered(abcd, m + data, s, old(buf[..]), buf[..], offset, data, copy);
        if offset + copy == 64 {
          abcd := ProxyProcess(abcd, buf[..]);
          Absorb(m + data, s + buf[..], data[copy..]);
        }
      }
    }

    /** md5_finish: pads, appends the length and gives the digest. */
    method Finish(ghost m: seq<byte>) returns (digest: seq<byte>)
      requires Holds(m)
      modifies this, buf
      ensures digest == Digest(m)
    {
      hide Blocks, Low, High, TwoWords, Padding, Digested;
      ProxyOffset(|m|);
      var data := TwoWords(count0, count1);
      var k := (55 - count0 / 8) % 64 + 1;
      PadPrefix(|m|, k);
      Append(m, PAD[..k]);
      Append(m + PAD[..k], data);
      AllDigested(abcd, buf[..], m);
      digest := Output(abcd);
    }
  }

  /** A padded message is all whole blocks. */
  lemma AllDigested(abcd: Words, buf: seq<byte>, m: seq<byte>)
    requires Digested(abcd, buf, Padded(m))
    ensures Output(abcd) == Digest(m)
  {
    hide Blocks, Padded, Padding, Output;
    WholeBlocks(|m| + |Padding(|m|)|);
    assert Padded(m)[..|Padded(m)|] == Padded(m);
  }

  /** The buffer has been filled up, or everything fits into it. */
  lemma Buffered(abcd: Words, m: seq<byte>, s: seq<byte>, before: seq<byte>, buf: seq<byte>,
                 offset: nat, data: seq<byte>, copy: nat)
    requires |before| == 64 && offset + copy <= 64 && copy <= |data|
    requires buf == before[..offset] + data[..copy] + before[offset + copy..]
    requires Processed(abcd, m, s, before[..offset] + data)
    requires copy == |data| || offset + copy == 64
    ensures offset + copy < 64 ==> Digested(abcd, buf, m)
    ensures offset + copy == 64 ==> Processed(Block(abcd, buf), m, s + buf, data[copy..])
  {
    var p := before[..offset] + data;
    if offset + copy < 64 {
      assert buf[..|p|] == p;
      ProcessedAll(abcd, buf, m, s, p);
    } else {
      assert p[..64] == buf && p[64..] == data[copy..];
      ProcessedBlock(abcd, m, s, p);
    }
  }

  // ---------------------------------------------------------------- the client's implementation

  /** The client counts bytes in two words. */
  lemma BytesAdded(n: nat, k: nat)
    requires k < TWO32
    ensures var low := (n % TWO32 + k) % TWO32;
      && low == (n + k) % TWO32
      && (n + k) / TWO32 % TWO32 == (n / TWO32 % TWO32 + if low < k then 1 else 0) % TWO32
  {
    var q, r := n / TWO32, n % TWO32;
    assert n + k == q * TWO32 + (r + k);
    if r + k < TWO32 {
      Quotient(n + k, TWO32, q, r + k);
    } else {
      Quotient(n + k, TWO32, q + 1, r + k - TWO32);
      Successor(q);
    }
  }

  lemma ClientOffset(n: nat)
    ensures n % TWO32 % 64 == n % 64
  {
    var q, r := n / TWO32, n % TWO32;
    assert n == r + 64 * (q * 0x400_0000);
    Modulo64(r, q * 0x400_0000);
  }

  /** The shifted words are the length in bits. */
  lemma BytesToBits(n: nat)
    ensures var total0, total1 := n % TWO32, n / TWO32 % TWO32;
      && 8 * total0 % TWO32 == Low(n)
      && total0 / TWO29 + 8 * total1 % TWO32 == High(n)
  {
    var q, r := n / TWO32, n % TWO32;
    var h, l := r / TWO29, r % TWO29;
    assert 8 * n == (8 * q + h) * TWO32 + 8 * l;
    Quotient(8 * n, TWO32, 8 * q + h, 8 * l);
    assert 8 * r == h * TWO32 + 8 * l;
    Quotient(8 * r, TWO32, h, 8 * l);
    Eights(q, h);
  }

  lemma Eights(q: nat, h: nat)
    requires h < 8
    ensures (8 * q + h) % TWO32 == 8 * (q % TWO32) % TWO32 + h
  {
    var a, b := q / TWO29, q % TWO29;
    assert 8 * q + h == a * TWO32 + (8 * b + h);
    Quotient(8 * q + h, TWO32, a, 8 * b + h);
    var c, d := q / TWO32, q % TWO32;
    assert q == c * TWO32 + d && d == (d / TWO29) * TWO29 + d % TWO29;
    assert q == (8 * c + d / TWO29) * TWO29 + d % TWO29;
    Quotient(q, TWO29, 8 * c + d / TWO29, d % TWO29);
    assert 8 * d == (d / TWO29) * TWO32 + 8 * b;
    Quotient(8 * d, TWO32, d / TWO29, 8 * b);
  }

  class ClientMd5 {
    /** The length in bytes, the low word first. */
    var total0: nat
    var total1: nat
    var state: Words
    const buffer: array<byte>

    ghost predicate Counted(n: nat)
      reads this
    {
      total0 == n % TWO32 && total1 == n / TWO32 % TWO32
    }

    ghost predicate Holds(m: seq<byte>)
      reads this, buffer
    {
      Counted(|m|) && Digested(state, buffer[..], m)
    }

    constructor ()
      ensures Holds([]) && fresh(buffer)
    {
      total0, total1, state := 0, 0, INITIAL;
      buffer := new byte[64];
    }

    method Count(ghost n: nat, ilen: nat)
      requires Counted(n) && ilen < TWO32
      modifies `total0, `total1
      ensures Counted(n + ilen)
    {
      BytesAdded(n, ilen);
      total0 := (total0 + ilen) % TWO32;
      if total0 < ilen {
        total1 := (total1 + 1) % TWO32;
      }
    }

    /** The full blocks of `p`; the rest goes to the start of the buffer. */
    method Absorb(ghost m: seq<byte>, ghost s: seq<byte>, p: seq<byte>)
      requires Processed(state, m, s, p) && buffer.Length == 64
      modifies `state, buffer
      ensures Digested(state, buffer[..], m)
    {
      hide Block, Blocks, Processed;
      var left := p;
      ghost var done := s;
      while |left| >= 64
        invariant Processed(state, m, done, left)
        decreases |left|
      {
        ProcessedBlock(state, m, done, left);
        state := ClientProcess(state, left[..64]);
        done := done + left[..64];
        left := left[64..];
      }
      if left != [] {
        Copy(buffer, 0, left);
      }
      assert buffer[..][..|left|] == left;
      ProcessedAll(state, buffer[..], m, done, left);
    }

    method Update(ghost m: seq<byte>, input: seq<byte>)
      requires Holds(m) && |input| < TWO32
      modifies this, buffer
      ensures Holds(m + input)
    {
      hide Block, Blocks;
      if input == [] {
        assert m + input == m;
        return;
      }
      ClientOffset(|m|);
      var left := total0 % 64;
      var fill := 64 - left;
      Begun(state, buffer[..], m, input);
      ghost var s := m[..Whole(|m|)];
      Count(|m|, |input|);
      if left != 0 && |input| >= fill {
        Copy(buffer, left, input[..fill]);
        Buffered(state, m + input, s, old(buffer[..]), buffer[..], left, input, fill);
        state := ClientProcess(state, buffer[..]);
        Absorb(m + input, s + buffer[..], input[fill..]);
      } else if left != 0 {
        Copy(buffer, left, input);
        assert input[..|input|] == input;
        Buffered(state, m + input, s, old(buffer[..]), buffer[..], left, input, |input|);
      } else {
        assert buffer[..][..0] + input == input;
        Absorb(m + input, s, input);
      }
    }

    /** md5_finish. The shifted words share no bits, so their sum is their union. */
    method Finish(ghost m: seq<byte>) returns (output: seq<byte>)
      requires Holds(m)
      modifies this, buffer
      ensures output == Digest(m)
    {
      hide Blocks, Low, High, TwoWords, Padding, Digested;
      BytesToBits(|m|);
      ClientOffset(|m|);
      var high := total0 / TWO29 + 8 * total1 % TWO32;
      var low := 8 * total0 % TWO32;
      var msglen := TwoWords(low, high);
      var last := total0 % 64;
      var padn := if last < 56 then 56 - last else 120 - last;
      PadLength(|m|, padn);
      PadPrefix(|m|, padn);
      Update(m, PAD[..padn]);
      Update(m + PAD[..padn], msglen);
      AllDigested(state, buffer[..], m);
      output := Output(state);
    }
  }

  // ---------------------------------------------------------------- every split into pieces

  /** The proxy's digest of a message appended in pieces is that of the whole message. */
  method ProxyDigest(pieces: seq<seq<byte>>) returns (digest: seq<byte>)
    requires forall k :: 0 <= k < |pieces| ==> |pieces[k]| < TWO28
    ensures digest == Digest(Concat(pieces))
  {
    var md5 := new ProxyMd5();
    hide Digest, Digested;
    for k := 0 to |pieces|
      invariant fresh(md5) && fresh(md5.buf) && md5.Holds(Concat(pieces[..k]))
    {
      assert pieces[..k + 1][..k] == pieces[..k];
      md5.Append(Concat(pieces[..k]), pieces[k]);
    }
    assert pieces[..|pieces|] == pieces;
    digest := md5.Finish(Concat(pieces));
  }

  /** And so is the client's. */
  method ClientDigest(pieces: seq<seq<byte>>) returns (digest: seq<byte>)
    requires forall k :: 0 <= k < |pieces| ==> |pieces[k]| < TWO32
    ensures digest == Digest(Concat(pieces))
  {
    var ctx := new ClientMd5();
    hide Digest, Digested;
    for k := 0 to |pieces|
      invariant fresh(ctx) && fresh(ctx.buffer) && ctx.Holds(Concat(pieces[..k]))
    {
      assert pieces[..k + 1][..k] == pieces[..k];
      ctx.Update(Concat(pieces[..k]), pieces[k]);
    }
    assert pieces[..|pieces|] == pieces;
    digest := ctx.Finish(Concat(pieces));
  }

  // ---------------------------------------------------------------- the two hashes of a key

  /** What both sides take of a digest: its first four bytes as a number. */
  function HashOf(m: seq<byte>): word {
    Word(Digest(m)[..4])
  }

  lemma WordBytes(w: word)
    ensures Word(Bytes(w)) == w
  {}

  /** The hash is the first register. */
  lemma HashIsFirstRegister(m: seq<byte>)
    ensures |Padded(m)| % 64 == 0 && HashOf(m) == Blocks(INITIAL, Padded(m)).a
  {
    WholeBlocks(|m| + |Padding(|m|)|);
    var w := Blocks(INITIAL, Padded(m));
    hide Blocks, Bytes, Word;
    assert Output(w)[..4] == Bytes(w.a);
    WordBytes(w.a);
  }

  /** What C takes a string to be: everything before the first zero byte. */
  function CString(s: seq<byte>): (r: seq<byte>)
    ensures r <= s && 0 !in r && (0 !in s ==> r == s)
  {
    if s == [] || s[0] == 0 then [] else [s[0]] + CString(s[1..])
  }

  /** ketama_hashi of the proxy. */
  method KetamaHashi(str: seq<byte>) returns (h: word)
    requires |CString(str)| < TWO28
    ensures h == HashOf(CString(str))
  {
    hide Digest, Word;
    var md5 := new ProxyMd5();
    md5.Append([], CString(str));
    assert [] + CString(str) == CString(str);
    var digest := md5.Finish(CString(str));
    h := Word(digest[..4]);
  }

  /** hash_md5 of the client. */
  method HashMd5(key: seq<byte>) returns (h: word)
    requires |key| < TWO32
    ensures h == HashOf(key)
  {
    hide Digest, Word;
    var ctx := new ClientMd5();
    ctx.Update([], key);
    assert [] + key == key;
    var results := ctx.Finish(key);
    h := Word(results[..4]);
  }

  /** Proxy and client place every key without a zero byte at the same point of the ring: the first register. */
  method SamePoint(key: seq<byte>) returns (proxy: word, client: word)
    requires 0 !in key && |key| < TWO28
    ensures |Padded(key)| % 64 == 0 && proxy == client == Blocks(INITIAL, Padded(key)).a
  {
    HashIsFirstRegister(key);
    hide Blocks, Padded, HashOf;
    proxy := KetamaHashi(key);
    client := HashMd5(key);
  }
}
