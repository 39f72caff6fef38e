/**
 * The digest of RFC 1321 on three messages of its section A.5. The operations are written out here
 * as the tables of section 3.4 have them, four at a time, apart from the definition they are checked
 * against.
 */
module Md5Suite {
  import opened Md5
  import opened Md5Stream

  // ---------------------------------------------------------------- rotation

  function Bit(x: word, i: bv6): word
    requires i < 32
  {
    (x >> i) & 1
  }

  function Left(x: word, s: bv6): word
    requires s < 32
  {
    x << s
  }

  function Right(x: word, s: bv6): word
    requires s < 32
  {
    x >> s
  }

  function Either(x: word, y: word): word { x | y }

  lemma LeftBit(x: word, s: bv6, i: bv6)
    requires s < 32 && i < 32
    ensures Bit(Left(x, s), i) == if i < s then 0 else Bit(x, i - s)
  {}

  lemma RightBit(x: word, s: bv6, i: bv6)
    requires s < 32 && i < 32
    ensures Bit(Right(x, s), i) == if i + s < 32 then Bit(x, i + s) else 0
  {}

  lemma EitherBit(x: word, y: word, i: bv6)
    requires i < 32
    ensures Bit(x, i) == 0 ==> Bit(Either(x, y), i) == Bit(y, i)
    ensures Bit(y, i) == 0 ==> Bit(Either(x, y), i) == Bit(x, i)
  {}

  lemma BothShifts(x: word, s: bv6)
    requires 0 < s < 32
    ensures Rotated(x, s) == Either(Left(x, s), Right(x, 32 - s))
  {}

  /** Bit `i` of a rotated word is the bit `s` places below it, going round. */
  lemma RotatedBit(x: word, s: bv6, i: bv6)
    requires 0 < s < 32 && i < 32
    ensures Bit(Rotated(x, s), i) == Bit(x, if i < s then i + 32 - s else i - s)
  {
    hide Bit, Left, Right, Either, Rotated;
    BothShifts(x, s);
    LeftBit(x, s, i);
    RightBit(x, 32 - s, i);
    EitherBit(Left(x, s), Right(x, 32 - s), i);
  }

  // ---------------------------------------------------------------- the tables of section 3.4

  /** [abcd k s i] of round 1, where `x` is word k of the block and `t` is T[i]. */
  function Turn1(a: word, b: word, c: word, d: word, x: word, s: bv6, t: word): word
    requires 0 < s < 32
  {
    Plus(b, Rotated(Total(a, F(b, c, d), x, t), s))
  }

  /** [abcd k s i] of round 2, where `x` is word k of the block and `t` is T[i]. */
  function Turn2(a: word, b: word, c: word, d: word, x: word, s: bv6, t: word): word
    requires 0 < s < 32
  {
    Plus(b, Rotated(Total(a, G(b, c, d), x, t), s))
  }

  /** [abcd k s i] of round 3, where `x` is word k of the block and `t` is T[i]. */
  function Turn3(a: word, b: word, c: word, d: word, x: word, s: bv6, t: word): word
    requires 0 < s < 32
  {
    Plus(b, Rotated(Total(a, H(b, c, d), x, t), s))
  }

  /** [abcd k s i] of round 4, where `x` is word k of the block and `t` is T[i]. */
  function Turn4(a: word, b: word, c: word, d: word, x: word, s: bv6, t: word): word
    requires 0 < s < 32
  {
    Plus(b, Rotated(Total(a, I(b, c, d), x, t), s))
  }

  /** The registers after `n` operations. */
  ghost predicate After(n: nat, v: Words, x: seq<word>, w: Words) {
    |x| == 16 && Operations(n, v, x) == w
  }

  lemma Start(v: Words, x: seq<word>)
    requires |x| == 16
    ensures After(0, v, x, v)
  {}

  /** Operation `n` takes word `k`, rotates by `s` and adds `t`. */
  predicate Takes(n: nat, k: nat, s: bv6, t: word) {
    K(n) == k && S(n) == s && T(n) == t
  }

  lemma Made(n: nat, w: Words, x: seq<word>, k: nat, s: bv6, t: word)
    requires |x| == 16 && k < 16 && 0 < s < 32 && Takes(n, k, s, t)
    ensures Operation(n, w, x) ==
      Words(w.d, Plus(w.b, Rotated(Total(w.a, Mix(n, w.b, w.c, w.d), x[k], t), s)), w.b, w.c)
  {
    hide K, S, T, Mix, Rotated, Total, Plus;
  }

  lemma Four(n: nat, v: Words, x: seq<word>, w: Words)
    requires After(n, v, x, w)
    ensures |x| == 16
    ensures After(n + 4, v, x, Operation(n + 3, Operation(n + 2, Operation(n + 1, Operation(n, w, x), x), x), x))
  {
    hide Operation;
    assert Operations(n + 1, v, x) == Operation(n, w, x);
    assert Operations(n + 2, v, x) == Operation(n + 1, Operations(n + 1, v, x), x);
    assert Operations(n + 3, v, x) == Operation(n + 2, Operations(n + 2, v, x), x);
  }

  lemma Rows4()
    ensures Takes(0, 0, 7, 0xd76aa478)
    ensures Takes(1, 1, 12, 0xe8c7b756)
    ensures Takes(2, 2, 17, 0x242070db)
    ensures Takes(3, 3, 22, 0xc1bdceee)
  {}

  lemma Operations4(v: Words, x: seq<word>, w: Words, q: Words)
    requires |x| == 16 && After(0, v, x, w)
    requires q.a == Turn1(w.a, w.b, w.c, w.d, x[0], 7, 0xd76aa478)
    requires q.d == Turn1(w.d, q.a, w.b, w.c, x[1], 12, 0xe8c7b756)
    requires q.c == Turn1(w.c, q.d, q.a, w.b, x[2], 17, 0x242070db)
    requires q.b == Turn1(w.b, q.c, q.d, q.a, x[3], 22, 0xc1bdceee)
    ensures After(4, v, x, q)
  {
    hide After, F, G, H, I, Plus, Rotated, Total, Operation, Takes;
    Rows4();
    Four(0, v, x, w);
    Made(0, w, x, 0, 7, 0xd76aa478);
    Made(1, Words(w.d, q.a, w.b, w.c), x, 1, 12, 0xe8c7b756);
    Made(2, Words(w.c, q.d, q.a, w.b), x, 2, 17, 0x242070db);
    Made(3, Words(w.b, q.c, q.d, q.a), x, 3, 22, 0xc1bdceee);
  }

  lemma Rows8()
    ensures Takes(4, 4, 7, 0xf57c0faf)
    ensures Takes(5, 5, 12, 0x4787c62a)
    ensures Takes(6, 6, 17, 0xa8304613)
    ensures Takes(7, 7, 22, 0xfd469501)
  {}

  lemma Operations8(v: Words, x: seq<word>, w: Words, q: Words)
    requires |x| == 16 && After(4, v, x, w)
    requires q.a == Turn1(w.a, w.b, w.c, w.d, x[4], 7, 0xf57c0faf)
    requires q.d == Turn1(w.d, q.a, w.b, w.c, x[5], 12, 0x4787c62a)
    requires q.c == Turn1(w.c, q.d, q.a, w.b, x[6], 17, 0xa8304613)
    requires q.b == Turn1(w.b, q.c, q.d, q.a, x[7], 22, 0xfd469501)
    ensures After(8, v, x, q)
  {
    hide After, F, G, H, I, Plus, Rotated, Total, Operation, Takes;
    Rows8();
    Four(4, v, x, w);
    Made(4, w, x, 4, 7, 0xf57c0faf);
    Made(5, Words(w.d, q.a, w.b, w.c), x, 5, 12, 0x4787c62a);
    Made(6, Words(w.c, q.d, q.a, w.b), x, 6, 17, 0xa8304613);
    Made(7, Words(w.b, q.c, q.d, q.a), x, 7, 22, 0xfd469501);
  }

  lemma Rows12()
    ensures Takes(8, 8, 7, 0x698098d8)
    ensures Takes(9, 9, 12, 0x8b44f7af)
    ensures Takes(10, 10, 17, 0xffff5bb1)
    ensures Takes(11, 11, 22, 0x895cd7be)
  {}

  lemma Operations12(v: Words, x: seq<word>, w: Words, q: Words)
    requires |x| == 16 && After(8, v, x, w)
    requires q.a == Turn1(w.a, w.b, w.c, w.d, x[8], 7, 0x698098d8)
    requires q.d == Turn1(w.d, q.a, w.b, w.c, x[9], 12, 0x8b44f7af)
    requires q.c == Turn1(w.c, q.d, q.a, w.b, x[10], 17, 0xffff5bb1)
    requires q.b == Turn1(w.b, q.c, q.d, q.a, x[11], 22, 0x895cd7be)
    ensures After(12, v, x, q)
  {
    hide After, F, G, H, I, Plus, Rotated, Total, Operation, Takes;
    Rows12();
    Four(8, v, x, w);
    Made(8, w, x, 8, 7, 0x698098d8);
    Made(9, Words(w.d, q.a, w.b, w.c), x, 9, 12, 0x8b44f7af);
    Made(10, Words(w.c, q.d, q.a, w.b), x, 10, 17, 0xffff5bb1);
    Made(11, Words(w.b, q.c, q.d, q.a), x, 11, 22, 0x895cd7be);
  }

  lemma Rows16()
    ensures Takes(12, 12, 7, 0x6b901122)
    ensures Takes(13, 13, 12, 0xfd987193)
    ensures Takes(14, 14, 17, 0xa679438e)
    ensures Takes(15, 15, 22, 0x49b40821)
  {}

  lemma Operations16(v: Words, x: seq<word>, w: Words, q: Words)
    requires |x| == 16 && After(12, v, x, w)
    requires q.a == Turn1(w.a, w.b, w.c, w.d, x[12], 7, 0x6b901122)
    requires q.d == Turn1(w.d, q.a, w.b, w.c, x[13], 12, 0xfd987193)
    requires q.c == Turn1(w.c, q.d, q.a, w.b, x[14], 17, 0xa679438e)
    requires q.b == Turn1(w.b, q.c, q.d, q.a, x[15], 22, 0x49b40821)
    ensures After(16, v, x, q)
  {
    hide After, F, G, H, I, Plus, Rotated, Total, Operation, Takes;
    Rows16();
    Four(12, v, x, w);
    Made(12, w, x, 12, 7, 0x6b901122);
    Made(13, Words(w.d, q.a, w.b, w.c), x, 13, 12, 0xfd987193);
    Made(14, Words(w.c, q.d, q.a, w.b), x, 14, 17, 0xa679438e);
    Made(15, Words(w.b, q.c, q.d, q.a), x, 15, 22, 0x49b40821);
  }

  lemma Rows20()
    ensures Takes(16, 1, 5, 0xf61e2562)
    ensures Takes(17, 6, 9, 0xc040b340)
    ensures Takes(18, 11, 14, 0x265e5a51)
    ensures Takes(19, 0, 20, 0xe9b6c7aa)
  {}

  lemma Operations20(v: Words, x: seq<word>, w: Words, q: Words)
    requires |x| == 16 && After(16, v, x, w)
    requires q.a == Turn2(w.a, w.b, w.c, w.d, x[1], 5, 0xf61e2562)
    requires q.d == Turn2(w.d, q.a, w.b, w.c, x[6], 9, 0xc040b340)
    requires q.c == Turn2(w.c, q.d, q.a, w.b, x[11], 14, 0x265e5a51)
    requires q.b == Turn2(w.b, q.c, q.d, q.a, x[0], 20, 0xe9b6c7aa)
    ensures After(20, v, x, q)
  {
    hide After, F, G, H, I, Plus, Rotated, Total, Operation, Takes;
    Rows20();
    Four(16, v, x, w);
    Made(16, w, x, 1, 5, 0xf61e2562);
    Made(17, Words(w.d, q.a, w.b, w.c), x, 6, 9, 0xc040b340);
    Made(18, Words(w.c, q.d, q.a, w.b), x, 11, 14, 0x265e5a51);
    Made(19, Words(w.b, q.c, q.d, q.a), x, 0, 20, 0xe9b6c7aa);
  }

  lemma Rows24()
    ensures Takes(20, 5, 5, 0xd62f105d)
    ensures Takes(21, 10, 9, 0x02441453)
    ensures Takes(22, 15, 14, 0xd8a1e681)
    ensures Takes(23, 4, 20, 0xe7d3fbc8)
  {}

  lemma Operations24(v: Words, x: seq<word>, w: Words, q: Words)
    requires |x| == 16 && After(20, v, x, w)
    requires q.a == Turn2(w.a, w.b, w.c, w.d, x[5], 5, 0xd62f105d)
    requires q.d == Turn2(w.d, q.a, w.b, w.c, x[10], 9, 0x02441453)
    requires q.c == Turn2(w.c, q.d, q.a, w.b, x[15], 14, 0xd8a1e681)
    requires q.b == Turn2(w.b, q.c, q.d, q.a, x[4], 20, 0xe7d3fbc8)
    ensures After(24, v, x, q)
  {
    hide After, F, G, H, I, Plus, Rotated, Total, Operation, Takes;
    Rows24();
    Four(20, v, x, w);
    Made(20, w, x, 5, 5, 0xd62f105d);
    Made(21, Words(w.d, q.a, w.b, w.c), x, 10, 9, 0x02441453);
    Made(22, Words(w.c, q.d, q.a, w.b), x, 15, 14, 0xd8a1e681);
    Made(23, Words(w.b, q.c, q.d, q.a), x, 4, 20, 0xe7d3fbc8);
  }

  lemma Rows28()
    ensures Takes(24, 9, 5, 0x21e1cde6)
    ensures Takes(25, 14, 9, 0xc33707d6)
    ensures Takes(26, 3, 14, 0xf4d50d87)
    ensures Takes(27, 8, 20, 0x455a14ed)
  {}

  lemma Operations28(v: Words, x: seq<word>, w: Words, q: Words)
    requires |x| == 16 && After(24, v, x, w)
    requires q.a == Turn2(w.a, w.b, w.c, w.d, x[9], 5, 0x21e1cde6)
    requires q.d == Turn2(w.d, q.a, w.b, w.c, x[14], 9, 0xc33707d6)
    requires q.c == Turn2(w.c, q.d, q.a, w.b, x[3], 14, 0xf4d50d87)
    requires q.b == Turn2(w.b, q.c, q.d, q.a, x[8], 20, 0x455a14ed)
    ensures After(28, v, x, q)
  {
    hide After, F, G, H, I, Plus, Rotated, Total, Operation, Takes;
    Rows28();
    Four(24, v, x, w);
    Made(24, w, x, 9, 5, 0x21e1cde6);
    Made(25, Words(w.d, q.a, w.b, w.c), x, 14, 9, 0xc33707d6);
    Made(26, Words(w.c, q.d, q.a, w.b), x, 3, 14, 0xf4d50d87);
    Made(27, Words(w.b, q.c, q.d, q.a), x, 8, 20, 0x455a14ed);
  }

  lemma Rows32()
    ensures Takes(28, 13, 5, 0xa9e3e905)
    ensures Takes(29, 2, 9, 0xfcefa3f8)
    ensures Takes(30, 7, 14, 0x676f02d9)
    ensures Takes(31, 12, 20, 0x8d2a4c8a)
  {}

  lemma Operations32(v: Words, x: seq<word>, w: Words, q: Words)
    requires |x| == 16 && After(28, v, x, w)
    requires q.a == Turn2(w.a, w.b, w.c, w.d, x[13], 5, 0xa9e3e905)
    requires q.d == Turn2(w.d, q.a, w.b, w.c, x[2], 9, 0xfcefa3f8)
    requires q.c == Turn2(w.c, q.d, q.a, w.b, x[7], 14, 0x676f02d9)
    requires q.b == Turn2(w.b, q.c, q.d, q.a, x[12], 20, 0x8d2a4c8a)
    ensures After(32, v, x, q)
  {
    hide After, F, G, H, I, Plus, Rotated, Total, Operation, Takes;
    Rows32();
    Four(28, v, x, w);
    Made(28, w, x, 13, 5, 0xa9e3e905);
    Made(29, Words(w.d, q.a, w.b, w.c), x, 2, 9, 0xfcefa3f8);
    Made(30, Words(w.c, q.d, q.a, w.b), x, 7, 14, 0x676f02d9);
    Made(31, Words(w.b, q.c, q.d, q.a), x, 12, 20, 0x8d2a4c8a);
  }

  lemma Rows36()
    ensures Takes(32, 5, 4, 0xfffa3942)
    ensures Takes(33, 8, 11, 0x8771f681)
    ensures Takes(34, 11, 16, 0x6d9d6122)
    ensures Takes(35, 14, 23, 0xfde5380c)
  {}

  lemma Operations36(v: Words, x: seq<word>, w: Words, q: Words)
    requires |x| == 16 && After(32, v, x, w)
    requires q.a == Turn3(w.a, w.b, w.c, w.d, x[5], 4, 0xfffa3942)
    requires q.d == Turn3(w.d, q.a, w.b, w.c, x[8], 11, 0x8771f681)
    requires q.c == Turn3(w.c, q.d, q.a, w.b, x[11], 16, 0x6d9d6122)
    requires q.b == Turn3(w.b, q.c, q.d, q.a, x[14], 23, 0xfde5380c)
    ensures After(36, v, x, q)
  {
    hide After, F, G, H, I, Plus, Rotated, Total, Operation, Takes;
    Rows36();
    Four(32, v, x, w);
    Made(32, w, x, 5, 4, 0xfffa3942);
    Made(33, Words(w.d, q.a, w.b, w.c), x, 8, 11, 0x8771f681);
    Made(34, Words(w.c, q.d, q.a, w.b), x, 11, 16, 0x6d9d6122);
    Made(35, Words(w.b, q.c, q.d, q.a), x, 14, 23, 0xfde5380c);
  }

  lemma Rows40()
    ensures Takes(36, 1, 4, 0xa4beea44)
    ensures Takes(37, 4, 11, 0x4bdecfa9)
    ensures Takes(38, 7, 16, 0xf6bb4b60)
    ensures Takes(39, 10, 23, 0xbebfbc70)
  {}

  lemma Operations40(v: Words, x: seq<word>, w: Words, q: Words)
    requires |x| == 16 && After(36, v, x, w)
    requires q.a == Turn3(w.a, w.b, w.c, w.d, x[1], 4, 0xa4beea44)
    requires q.d == Turn3(w.d, q.a, w.b, w.c, x[4], 11, 0x4bdecfa9)
    requires q.c == Turn3(w.c, q.d, q.a, w.b, x[7], 16, 0xf6bb4b60)
    requires q.b == Turn3(w.b, q.c, q.d, q.a, x[10], 23, 0xbebfbc70)
    ensures After(40, v, x, q)
  {
    hide After, F, G, H, I, Plus, Rotated, Total, Operation, Takes;
    Rows40();
    Four(36, v, x, w);
    Made(36, w, x, 1, 4, 0xa4beea44);
    Made(37, Words(w.d, q.a, w.b, w.c), x, 4, 11, 0x4bdecfa9);
    Made(38, Words(w.c, q.d, q.a, w.b), x, 7, 16, 0xf6bb4b60);
    Made(39, Words(w.b, q.c, q.d, q.a), x, 10, 23, 0xbebfbc70);
  }

  lemma Rows44()
    ensures Takes(40, 13, 4, 0x289b7ec6)
    ensures Takes(41, 0, 11, 0xeaa127fa)
    ensures Takes(42, 3, 16, 0xd4ef3085)
    ensures Takes(43, 6, 23, 0x04881d05)
  {}

  lemma Operations44(v: Words, x: seq<word>, w: Words, q: Words)
    requires |x| == 16 && After(40, v, x, w)
    requires q.a == Turn3(w.a, w.b, w.c, w.d, x[13], 4, 0x289b7ec6)
    requires q.d == Turn3(w.d, q.a, w.b, w.c, x[0], 11, 0xeaa127fa)
    requires q.c == Turn3(w.c, q.d, q.a, w.b, x[3], 16, 0xd4ef3085)
    requires q.b == Turn3(w.b, q.c, q.d, q.a, x[6], 23, 0x04881d05)
    ensures After(44, v, x, q)
  {
    hide After, F, G, H, I, Plus, Rotated, Total, Operation, Takes;
    Rows44();
    Four(40, v, x, w);
    Made(40, w, x, 13, 4, 0x289b7ec6);
    Made(41, Words(w.d, q.a, w.b, w.c), x, 0, 11, 0xeaa127fa);
    Made(42, Words(w.c, q.d, q.a, w.b), x, 3, 16, 0xd4ef3085);
    Made(43, Words(w.b, q.c, q.d, q.a), x, 6, 23, 0x04881d05);
  }

  lemma Rows48()
    ensures Takes(44, 9, 4, 0xd9d4d039)
    ensures Takes(45, 12, 11, 0xe6db99e5)
    ensures Takes(46, 15, 16, 0x1fa27cf8)
    ensures Takes(47, 2, 23, 0xc4ac5665)
  {}

  lemma Operations48(v: Words, x: seq<word>, w: Words, q: Words)
    requires |x| == 16 && After(44, v, x, w)
    requires q.a == Turn3(w.a, w.b, w.c, w.d, x[9], 4, 0xd9d4d039)
    requires q.d == Turn3(w.d, q.a, w.b, w.c, x[12], 11, 0xe6db99e5)
    requires q.c == Turn3(w.c, q.d, q.a, w.b, x[15], 16, 0x1fa27cf8)
    requires q.b == Turn3(w.b, q.c, q.d, q.a, x[2], 23, 0xc4ac5665)
    ensures After(48, v, x, q)
  {
    hide After, F, G, H, I, Plus, Rotated, Total, Operation, Takes;
    Rows48();
    Four(44, v, x, w);
    Made(44, w, x, 9, 4, 0xd9d4d039);
    Made(45, Words(w.d, q.a, w.b, w.c), x, 12, 11, 0xe6db99e5);
    Made(46, Words(w.c, q.d, q.a, w.b), x, 15, 16, 0x1fa27cf8);
    Made(47, Words(w.b, q.c, q.d, q.a), x, 2, 23, 0xc4ac5665);
  }

  lemma Rows52()
    ensures Takes(48, 0, 6, 0xf4292244)
    ensures Takes(49, 7, 10, 0x432aff97)
    ensures Takes(50, 14, 15, 0xab9423a7)
    ensures Takes(51, 5, 21, 0xfc93a039)
  {}

  lemma Operations52(v: Words, x: seq<word>, w: Words, q: Words)
    requires |x| == 16 && After(48, v, x, w)
    requires q.a == Turn4(w.a, w.b, w.c, w.d, x[0], 6, 0xf4292244)
    requires q.d == Turn4(w.d, q.a, w.b, w.c, x[7], 10, 0x432aff97)
    requires q.c == Turn4(w.c, q.d, q.a, w.b, x[14], 15, 0xab9423a7)
    requires q.b == Turn4(w.b, q.c, q.d, q.a, x[5], 21, 0xfc93a039)
    ensures After(52, v, x, q)
  {
    hide After, F, G, H, I, Plus, Rotated, Total, Operation, Takes;
    Rows52();
    Four(48, v, x, w);
    Made(48, w, x, 0, 6, 0xf4292244);
    Made(49, Words(w.d, q.a, w.b, w.c), x, 7, 10, 0x432aff97);
    Made(50, Words(w.c, q.d, q.a, w.b), x, 14, 15, 0xab9423a7);
    Made(51, Words(w.b, q.c, q.d, q.a), x, 5, 21, 0xfc93a039);
  }

  lemma Rows56()
    ensures Takes(52, 12, 6, 0x655b59c3)
    ensures Takes(53, 3, 10, 0x8f0ccc92)
    ensures Takes(54, 10, 15, 0xffeff47d)
    ensures Takes(55, 1, 21, 0x85845dd1)
  {}

  lemma Operations56(v: Words, x: seq<word>, w: Words, q: Words)
    requires |x| == 16 && After(52, v, x, w)
    requires q.a == Turn4(w.a, w.b, w.c, w.d, x[12], 6, 0x655b59c3)
    requires q.d == Turn4(w.d, q.a, w.b, w.c, x[3], 10, 0x8f0ccc92)
    requires q.c == Turn4(w.c, q.d, q.a, w.b, x[10], 15, 0xffeff47d)
    requires q.b == Turn4(w.b, q.c, q.d, q.a, x[1], 21, 0x85845dd1)
    ensures After(56, v, x, q)
  {
    hide After, F, G, H, I, Plus, Rotated, Total, Operation, Takes;
    Rows56();
    Four(52, v, x, w);
    Made(52, w, x, 12, 6, 0x655b59c3);
    Made(53, Words(w.d, q.a, w.b, w.c), x, 3, 10, 0x8f0ccc92);
    Made(54, Words(w.c, q.d, q.a, w.b), x, 10, 15, 0xffeff47d);
    Made(55, Words(w.b, q.c, q.d, q.a), x, 1, 21, 0x85845dd1);
  }

  lemma Rows60()
    ensures Takes(56, 8, 6, 0x6fa87e4f)
    ensures Takes(57, 15, 10, 0xfe2ce6e0)
    ensures Takes(58, 6, 15, 0xa3014314)
    ensures Takes(59, 13, 21, 0x4e0811a1)
  {}

  lemma Operations60(v: Words, x: seq<word>, w: Words, q: Words)
    requires |x| == 16 && After(56, v, x, w)
    requires q.a == Turn4(w.a, w.b, w.c, w.d, x[8], 6, 0x6fa87e4f)
    requires q.d == Turn4(w.d, q.a, w.b, w.c, x[15], 10, 0xfe2ce6e0)
    requires q.c == Turn4(w.c, q.d, q.a, w.b, x[6], 15, 0xa3014314)
    requires q.b == Turn4(w.b, q.c, q.d, q.a, x[13], 21, 0x4e0811a1)
    ensures After(60, v, x, q)
  {
    hide After, F, G, H, I, Plus, Rotated, Total, Operation, Takes;
    Rows60();
    Four(56, v, x, w);
    Made(56, w, x, 8, 6, 0x6fa87e4f);
    Made(57, Words(w.d, q.a, w.b, w.c), x, 15, 10, 0xfe2ce6e0);
    Made(58, Words(w.c, q.d, q.a, w.b), x, 6, 15, 0xa3014314);
    Made(59, Words(w.b, q.c, q.d, q.a), x, 13, 21, 0x4e0811a1);
  }

  lemma Rows64()
    ensures Takes(60, 4, 6, 0xf7537e82)
    ensures Takes(61, 11, 10, 0xbd3af235)
    ensures Takes(62, 2, 15, 0x2ad7d2bb)
    ensures Takes(63, 9, 21, 0xeb86d391)
  {}

  lemma Operations64(v: Words, x: seq<word>, w: Words, q: Words)
    requires |x| == 16 && After(60, v, x, w)
    requires q.a == Turn4(w.a, w.b, w.c, w.d, x[4], 6, 0xf7537e82)
    requires q.d == Turn4(w.d, q.a, w.b, w.c, x[11], 10, 0xbd3af235)
    requires q.c == Turn4(w.c, q.d, q.a, w.b, x[2], 15, 0x2ad7d2bb)
    requires q.b == Turn4(w.b, q.c, q.d, q.a, x[9], 21, 0xeb86d391)
    ensures After(64, v, x, q)
  {
    hide After, F, G, H, I, Plus, Rotated, Total, Operation, Takes;
    Rows64();
    Four(60, v, x, w);
    Made(60, w, x, 4, 6, 0xf7537e82);
    Made(61, Words(w.d, q.a, w.b, w.c), x, 11, 10, 0xbd3af235);
    Made(62, Words(w.c, q.d, q.a, w.b), x, 2, 15, 0x2ad7d2bb);
    Made(63, Words(w.b, q.c, q.d, q.a), x, 9, 21, 0xeb86d391);
  }

  // ---------------------------------------------------------------- messages of one block

  /** The first four bytes of a short message that has been padded. */
  function Head(m: seq<byte>): (r: seq<byte>)
    requires |m| <= 3
    ensures |r| == 4
  {
    m + [0x80] + Zeros(3 - |m|)
  }

  lemma ShortPadded(m: seq<byte>)
    requires |m| <= 3
    ensures Padded(m) == Head(m) + (Zeros(52) + Length(|m|))
  {
    hide Length;
    assert (55 - |m|) % 64 == 55 - |m|;
    assert Zeros(55 - |m|) == Zeros(3 - |m|) + Zeros(52);
  }

  lemma ZeroWord(b: seq<byte>)
    requires |b| == 4 && forall i :: 0 <= i < 4 ==> b[i] == 0
    ensures Word(b) == 0
  {}

  lemma LengthWords(n: nat)
    requires n <= 3
    ensures Word(Length(n)[..4]) == (8 * n) as word && Word(Length(n)[4..]) == 0
  {
    assert Low(n) == 8 * n && High(n) == 0;
    hide Word, Bytes;
    WordBytes((8 * n) as word);
    WordBytes(0);
    assert Length(n)[..4] == Bytes((8 * n) as word) && Length(n)[4..] == Bytes(0);
  }

  lemma ShortDecoded(m: seq<byte>, i: nat)
    requires |m| <= 3 && i < 16
    ensures |Padded(m)| == 64
    ensures Decoded(Padded(m))[i] == if i == 0 then Word(Head(m)) else if i == 14 then (8 * |m|) as word else 0
  {
    hide Word, Padded, Length, Head;
    ShortPadded(m);
    LengthWords(|m|);
    var s := Padded(m);
    var part := s[4 * i..4 * i + 4];
    assert Decoded(s)[i] == Word(part);
    if i == 0 {
      assert part == Head(m);
    } else if i < 14 {
      assert forall j :: 0 <= j < 4 ==> part[j] == Zeros(52)[4 * i + j - 4];
      ZeroWord(part);
    } else if i == 14 {
      assert part == Length(|m|)[..4];
    } else {
      assert part == Length(|m|)[4..];
    }
  }

  lemma DigestOne(m: seq<byte>, x: seq<word>, w: Words)
    requires |Padded(m)| == 64 && Decoded(Padded(m)) == x && After(64, INITIAL, x, w)
    ensures Digest(m) == Output(Sum(INITIAL, w))
  {
    hide Operations, Decoded, Padded, Output, Sum;
    var s := Padded(m);
    assert s[..0] == [] && s[0..] == s;
    assert Blocks(INITIAL, s) == Block(Blocks(INITIAL, []), s);
  }

  /** The words of the empty message, padded. */
  const EMPTY_BLOCK: seq<word> := [
    0x00000080, 0x00000000, 0x00000000, 0x00000000, 0x00000000, 0x00000000, 0x00000000, 0x00000000,
    0x00000000, 0x00000000, 0x00000000, 0x00000000, 0x00000000, 0x00000000, 0x00000000, 0x00000000]

  lemma EmptyTo16(v: Words, x: seq<word>)
    requires x == EMPTY_BLOCK && After(0, v, x, Words(0x67452301, 0xefcdab89, 0x98badcfe, 0x10325476))
    ensures After(16, v, x, Words(0xf56c7cf1, 0xd6819c6a, 0x5aa53f75, 0x374943a7))
  {
    hide After;
    assert x[0] == 0x00000080 && x[1] == 0x00000000 && x[2] == 0x00000000 && x[3] == 0x00000000;
    assert x[4] == 0x00000000 && x[5] == 0x00000000 && x[6] == 0x00000000 && x[7] == 0x00000000;
    assert x[8] == 0x00000000 && x[9] == 0x00000000 && x[10] == 0x00000000 && x[11] == 0x00000000;
    assert x[12] == 0x00000000 && x[13] == 0x00000000 && x[14] == 0x00000000 && x[15] == 0x00000000;
    Operations4(v, x, Words(0x67452301, 0xefcdab89, 0x98badcfe, 0x10325476),
                 Words(0xa5202774, 0x1b163203, 0xe7f06b23, 0xf59592dd));
    Operations8(v, x, Words(0xa5202774, 0x1b163203, 0xe7f06b23, 0xf59592dd),
                 Words(0x32033344, 0x9bc13ce9, 0xf5b158db, 0x2f35d494));
    Operations12(v, x, Words(0x32033344, 0x9bc13ce9, 0xf5b158db, 0x2f35d494),
                  Words(0x3893b991, 0x70768a29, 0xe1ef0576, 0xfce4a312));
    Operations16(v, x, Words(0x3893b991, 0x70768a29, 0xe1ef0576, 0xfce4a312),
                  Words(0xf56c7cf1, 0xd6819c6a, 0x5aa53f75, 0x374943a7));
  }

  lemma EmptyTo32(v: Words, x: seq<word>)
    requires x == EMPTY_BLOCK && After(16, v, x, Words(0xf56c7cf1, 0xd6819c6a, 0x5aa53f75, 0x374943a7))
    ensures After(32, v, x, Words(0x13707036, 0xa2205f1f, 0x1c31c384, 0xae7813db))
  {
    hide After;
    Operations20(v, x, Words(0xf56c7cf1, 0xd6819c6a, 0x5aa53f75, 0x374943a7),
                  Words(0x1c7d7513, 0xbd782e17, 0xc095f13a, 0x7bd57a3a));
    Operations24(v, x, Words(0x1c7d7513, 0xbd782e17, 0xc095f13a, 0x7bd57a3a),
                  Words(0x3d1e3e6c, 0xe422531a, 0xeb41643e, 0x68b7b3e3));
    Operations28(v, x, Words(0x3d1e3e6c, 0xe422531a, 0xeb41643e, 0x68b7b3e3),
                  Words(0x306ec122, 0xa0572807, 0xa3c663da, 0xd28c77c2));
    Operations32(v, x, Words(0x306ec122, 0xa0572807, 0xa3c663da, 0xd28c77c2),
                  Words(0x13707036, 0xa2205f1f, 0x1c31c384, 0xae7813db));
  }

  lemma EmptyTo48(v: Words, x: seq<word>)
    requires x == EMPTY_BLOCK && After(32, v, x, Words(0x13707036, 0xa2205f1f, 0x1c31c384, 0xae7813db))
    ensures After(48, v, x, Words(0x3f55edfd, 0xca7d2dbd, 0x68d84ea2, 0x22a31f54))
  {
    hide After;
    Operations36(v, x, Words(0x13707036, 0xa2205f1f, 0x1c31c384, 0xae7813db),
                  Words(0xdf63eaa1, 0x004b6669, 0x12f3e755, 0xc3689f5b));
    Operations40(v, x, Words(0xdf63eaa1, 0x004b6669, 0x12f3e755, 0xc3689f5b),
                  Words(0x5f7a9b2e, 0xc5dc8c15, 0x91ca4cb7, 0xabc34e16));
    Operations44(v, x, Words(0x5f7a9b2e, 0xc5dc8c15, 0x91ca4cb7, 0xabc34e16),
                  Words(0x4497169d, 0x0fe32453, 0xfd95f243, 0x76fd93d4));
    Operations48(v, x, Words(0x4497169d, 0x0fe32453, 0xfd95f243, 0x76fd93d4),
                  Words(0x3f55edfd, 0xca7d2dbd, 0x68d84ea2, 0x22a31f54));
  }

  lemma EmptyTo64(v: Words, x: seq<word>)
    requires x == EMPTY_BLOCK && After(48, v, x, Words(0x3f55edfd, 0xca7d2dbd, 0x68d84ea2, 0x22a31f54))
    ensures After(64, v, x, Words(0x7246fad3, 0x14e45506, 0xff4ea3eb, 0x6e10a476))
  {
    hide After;
    Operations52(v, x, Words(0x3f55edfd, 0xca7d2dbd, 0x68d84ea2, 0x22a31f54),
                  Words(0x93aa2577, 0x561e0689, 0xcd85b8cb, 0x1688dc85));
    Operations56(v, x, Words(0x93aa2577, 0x561e0689, 0xcd85b8cb, 0x1688dc85),
                  Words(0x5625a114, 0x1e77fa61, 0x392ad0d0, 0x3450f42b));
    Operations60(v, x, Words(0x5625a114, 0x1e77fa61, 0x392ad0d0, 0x3450f42b),
                  Words(0x474a9c8c, 0x30130182, 0x36594b14, 0xdfce00bc));
    Operations64(v, x, Words(0x474a9c8c, 0x30130182, 0x36594b14, 0xdfce00bc),
                  Words(0x7246fad3, 0x14e45506, 0xff4ea3eb, 0x6e10a476));
  }

  lemma EmptyOperations(v: Words)
    requires v == Words(0x67452301, 0xefcdab89, 0x98badcfe, 0x10325476)
    ensures After(64, v, EMPTY_BLOCK, Words(0x7246fad3, 0x14e45506, 0xff4ea3eb, 0x6e10a476))
  {
    hide After;
    Start(v, EMPTY_BLOCK);
    EmptyTo16(v, EMPTY_BLOCK);
    EmptyTo32(v, EMPTY_BLOCK);
    EmptyTo48(v, EMPTY_BLOCK);
    EmptyTo64(v, EMPTY_BLOCK);
  }

  lemma EmptyDecoded()
    ensures |Padded([])| == 64 && Decoded(Padded([])) == EMPTY_BLOCK
  {
    hide Decoded, Padded;
    var m: seq<byte> := [];
    assert Word(Head(m)) == 0x00000080;
    forall i | 0 <= i < 16
      ensures |Padded(m)| == 64 && Decoded(Padded(m))[i] == EMPTY_BLOCK[i]
    {
      ShortDecoded(m, i);
    }
  }

  lemma EmptySum()
    ensures Sum(INITIAL, Words(0x7246fad3, 0x14e45506, 0xff4ea3eb, 0x6e10a476))
      == Words(0xd98c1dd4, 0x04b2008f, 0x980980e9, 0x7e42f8ec)
  {}

  lemma EmptyOutput()
    ensures Output(Words(0xd98c1dd4, 0x04b2008f, 0x980980e9, 0x7e42f8ec)) == [
      0xd4, 0x1d, 0x8c, 0xd9, 0x8f, 0x00, 0xb2, 0x04, 0xe9, 0x80, 0x09, 0x98, 0xec, 0xf8, 0x42, 0x7e]
  {}

  /** MD5 ("") */
  lemma Empty()
    ensures Digest([]) == [
      0xd4, 0x1d, 0x8c, 0xd9, 0x8f, 0x00, 0xb2, 0x04, 0xe9, 0x80, 0x09, 0x98, 0xec, 0xf8, 0x42, 0x7e]
    ensures HashOf([]) == 0xd98c1dd4
  {
    hide After, Decoded, Padded, Digest, Sum, Output;
    EmptyDecoded();
    EmptyOperations(INITIAL);
    DigestOne([], EMPTY_BLOCK, Words(0x7246fad3, 0x14e45506, 0xff4ea3eb, 0x6e10a476));
    EmptySum();
    EmptyOutput();
  }

  /** The words of "a", padded. */
  const A_BLOCK: seq<word> := [
    0x00008061, 0x00000000, 0x00000000, 0x00000000, 0x00000000, 0x00000000, 0x00000000, 0x00000000,
    0x00000000, 0x00000000, 0x00000000, 0x00000000, 0x00000000, 0x00000000, 0x00000008, 0x00000000]

  lemma ATo16(v: Words, x: seq<word>)
    requires x == A_BLOCK && After(0, v, x, Words(0x67452301, 0xefcdab89, 0x98badcfe, 0x10325476))
    ensures After(16, v, x, Words(0x44244cf8, 0xf01e3ce2, 0x6360a45f, 0xd0fe9b27))
  {
    hide After;
    assert x[0] == 0x00008061 && x[1] == 0x00000000 && x[2] == 0x00000000 && x[3] == 0x00000000;
    assert x[4] == 0x00000000 && x[5] == 0x00000000 && x[6] == 0x00000000 && x[7] == 0x00000000;
    assert x[8] == 0x00000000 && x[9] == 0x00000000 && x[10] == 0x00000000 && x[11] == 0x00000000;
    assert x[12] == 0x00000000 && x[13] == 0x00000000 && x[14] == 0x00000008 && x[15] == 0x00000000;
    Operations4(v, x, Words(0x67452301, 0xefcdab89, 0x98badcfe, 0x10325476),
                 Words(0xa56017f4, 0x607d9686, 0xe65857a7, 0xf2d58361));
    Operations8(v, x, Words(0xa56017f4, 0x607d9686, 0xe65857a7, 0xf2d58361),
                 Words(0x3a9d5bcc, 0xa8af6da5, 0xd31ddc83, 0xe0a07db7));
    Operations12(v, x, Words(0x3a9d5bcc, 0xa8af6da5, 0xd31ddc83, 0xe0a07db7),
                  Words(0xbe580957, 0x68493d6a, 0xf5fdd933, 0xf386bea6));
    Operations16(v, x, Words(0xbe580957, 0x68493d6a, 0xf5fdd933, 0xf386bea6),
                  Words(0x44244cf8, 0xf01e3ce2, 0x6360a45f, 0xd0fe9b27));
  }

  lemma ATo32(v: Words, x: seq<word>)
    requires x == A_BLOCK && After(16, v, x, Words(0x44244cf8, 0xf01e3ce2, 0x6360a45f, 0xd0fe9b27))
    ensures After(32, v, x, Words(0x93842e98, 0x3745961f, 0x94a2ebee, 0xc7043b64))
  {
    hide After;
    Operations20(v, x, Words(0x44244cf8, 0xf01e3ce2, 0x6360a45f, 0xd0fe9b27),
                  Words(0x9c341767, 0x8d25cc66, 0xe39ffd23, 0x970ab3a9));
    Operations24(v, x, Words(0x9c341767, 0x8d25cc66, 0xe39ffd23, 0x970ab3a9),
                  Words(0x8c444930, 0x373beab0, 0x2dacb8a3, 0x7267097a));
    Operations28(v, x, Words(0x8c444930, 0x373beab0, 0x2dacb8a3, 0x7267097a),
                  Words(0xf175e3ad, 0xc8f891b4, 0x87b7f475, 0x9d5df67e));
    Operations32(v, x, Words(0xf175e3ad, 0xc8f891b4, 0x87b7f475, 0x9d5df67e),
                  Words(0x93842e98, 0x3745961f, 0x94a2ebee, 0xc7043b64));
  }

  lemma ATo48(v: Words, x: seq<word>)
    requires x == A_BLOCK && After(32, v, x, Words(0x93842e98, 0x3745961f, 0x94a2ebee, 0xc7043b64))
    ensures After(48, v, x, Words(0x0ac50e18, 0x918f93bb, 0x8a4a6356, 0x79ca7845))
  {
    hide After;
    Operations36(v, x, Words(0x93842e98, 0x3745961f, 0x94a2ebee, 0xc7043b64),
                  Words(0xbd607d1e, 0xdaf7f308, 0xbf8b4f98, 0xa6f72085));
    Operations40(v, x, Words(0xbd607d1e, 0xdaf7f308, 0xbf8b4f98, 0xa6f72085),
                  Words(0x35a82a7a, 0xcf7e60db, 0x5abe099c, 0x89e0ec97));
    Operations44(v, x, Words(0x35a82a7a, 0xcf7e60db, 0x5abe099c, 0x89e0ec97),
                  Words(0x75c151e2, 0xcc6f5e9e, 0x0c0e6ac4, 0x942e0c86));
    Operations48(v, x, Words(0x75c151e2, 0xcc6f5e9e, 0x0c0e6ac4, 0x942e0c86),
                  Words(0x0ac50e18, 0x918f93bb, 0x8a4a6356, 0x79ca7845));
  }

  lemma ATo64(v: Words, x: seq<word>)
    requires x == A_BLOCK && After(48, v, x, Words(0x0ac50e18, 0x918f93bb, 0x8a4a6356, 0x79ca7845))
    ensures After(64, v, x, Words(0x52309e0b, 0xb8e94637, 0x49dee633, 0x50f422f3))
  {
    hide After;
    Operations52(v, x, Words(0x0ac50e18, 0x918f93bb, 0x8a4a6356, 0x79ca7845),
                  Words(0xcab8fe42, 0x1ee405eb, 0x36269c3f, 0x6a4daeee));
    Operations56(v, x, Words(0xcab8fe42, 0x1ee405eb, 0x36269c3f, 0x6a4daeee),
                  Words(0x982c7861, 0x893501c0, 0x71fc7709, 0x6812a362));
    Operations60(v, x, Words(0x982c7861, 0x893501c0, 0x71fc7709, 0x6812a362),
                  Words(0xfebd62fd, 0xaa4d8ae3, 0x53e33526, 0x28936a74));
    Operations64(v, x, Words(0xfebd62fd, 0xaa4d8ae3, 0x53e33526, 0x28936a74),
                  Words(0x52309e0b, 0xb8e94637, 0x49dee633, 0x50f422f3));
  }

  lemma AOperations(v: Words)
    requires v == Words(0x67452301, 0xefcdab89, 0x98badcfe, 0x10325476)
    ensures After(64, v, A_BLOCK, Words(0x52309e0b, 0xb8e94637, 0x49dee633, 0x50f422f3))
  {
    hide After;
    Start(v, A_BLOCK);
    ATo16(v, A_BLOCK);
    ATo32(v, A_BLOCK);
    ATo48(v, A_BLOCK);
    ATo64(v, A_BLOCK);
  }

  lemma ADecoded()
    ensures |Padded([0x61])| == 64 && Decoded(Padded([0x61])) == A_BLOCK
  {
    hide Decoded, Padded;
    var m: seq<byte> := [0x61];
    assert Word(Head(m)) == 0x00008061;
    forall i | 0 <= i < 16
      ensures |Padded(m)| == 64 && Decoded(Padded(m))[i] == A_BLOCK[i]
    {
      ShortDecoded(m, i);
    }
  }

  lemma ASum()
    ensures Sum(INITIAL, Words(0x52309e0b, 0xb8e94637, 0x49dee633, 0x50f422f3))
      == Words(0xb975c10c, 0xa8b6f1c0, 0xe299c331, 0x61267769)
  {}

  lemma AOutput()
    ensures Output(Words(0xb975c10c, 0xa8b6f1c0, 0xe299c331, 0x61267769)) == [
      0x0c, 0xc1, 0x75, 0xb9, 0xc0, 0xf1, 0xb6, 0xa8, 0x31, 0xc3, 0x99, 0xe2, 0x69, 0x77, 0x26, 0x61]
  {}

  /** MD5 ("a") */
  lemma A()
    ensures Digest([0x61]) == [
      0x0c, 0xc1, 0x75, 0xb9, 0xc0, 0xf1, 0xb6, 0xa8, 0x31, 0xc3, 0x99, 0xe2, 0x69, 0x77, 0x26, 0x61]
    ensures HashOf([0x61]) == 0xb975c10c
  {
    hide After, Decoded, Padded, Digest, Sum, Output;
    ADecoded();
    AOperations(INITIAL);
    DigestOne([0x61], A_BLOCK, Words(0x52309e0b, 0xb8e94637, 0x49dee633, 0x50f422f3));
    ASum();
    AOutput();
  }

  /** The words of "abc", padded. */
  const ABC_BLOCK: seq<word> := [
    0x80636261, 0x00000000, 0x00000000, 0x00000000, 0x00000000, 0x00000000, 0x00000000, 0x00000000,
    0x00000000, 0x00000000, 0x00000000, 0x00000000, 0x00000000, 0x00000000, 0x00000018, 0x00000000]

  lemma AbcTo16(v: Words, x: seq<word>)
    requires x == ABC_BLOCK && After(0, v, x, Words(0x67452301, 0xefcdab89, 0x98badcfe, 0x10325476))
    ensures After(16, v, x, Words(0xdda9b9a6, 0x72aff2e0, 0xe396856b, 0xa1051895))
  {
    hide After;
    assert x[0] == 0x80636261 && x[1] == 0x00000000 && x[2] == 0x00000000 && x[3] == 0x00000000;
    assert x[4] == 0x00000000 && x[5] == 0x00000000 && x[6] == 0x00000000 && x[7] == 0x00000000;
    assert x[8] == 0x00000000 && x[9] == 0x00000000 && x[10] == 0x00000000 && x[11] == 0x00000000;
    assert x[12] == 0x00000000 && x[13] == 0x00000000 && x[14] == 0x00000018 && x[15] == 0x00000000;
    Operations4(v, x, Words(0x67452301, 0xefcdab89, 0x98badcfe, 0x10325476),
                 Words(0xd6d117b4, 0x7ad956f2, 0x2f6fbd72, 0x344a8432));
    Operations8(v, x, Words(0xd6d117b4, 0x7ad956f2, 0x2f6fbd72, 0x344a8432),
                 Words(0xc73741ef, 0x928d99f6, 0x207dc67b, 0x8bac3051));
    Operations12(v, x, Words(0xc73741ef, 0x928d99f6, 0x207dc67b, 0x8bac3051),
                  Words(0x854b3712, 0x5ed49596, 0x3020401c, 0x74e2f284));
    Operations16(v, x, Words(0x854b3712, 0x5ed49596, 0x3020401c, 0x74e2f284),
                  Words(0xdda9b9a6, 0x72aff2e0, 0xe396856b, 0xa1051895));
  }

  lemma AbcTo32(v: Words, x: seq<word>)
    requires x == ABC_BLOCK && After(16, v, x, Words(0xdda9b9a6, 0x72aff2e0, 0xe396856b, 0xa1051895))
    ensures After(32, v, x, Words(0x790a77fb, 0x726342d3, 0xa62884aa, 0x9f47e4f8))
  {
    hide After;
    Operations20(v, x, Words(0xdda9b9a6, 0x72aff2e0, 0xe396856b, 0xa1051895),
                  Words(0x3e9e9126, 0xb5b204e4, 0xe25e1652, 0x4a1d804e));
    Operations24(v, x, Words(0x3e9e9126, 0xb5b204e4, 0xe25e1652, 0x4a1d804e),
                  Words(0x59a8ffda, 0x47092c07, 0xabfc7920, 0x6d002f1e));
    Operations28(v, x, Words(0x59a8ffda, 0x47092c07, 0xabfc7920, 0x6d002f1e),
                  Words(0xb7f268cf, 0x786acb8f, 0xfe1623b1, 0x09388eff));
    Operations32(v, x, Words(0xb7f268cf, 0x786acb8f, 0xfe1623b1, 0x09388eff),
                  Words(0x790a77fb, 0x726342d3, 0xa62884aa, 0x9f47e4f8));
  }

  lemma AbcTo48(v: Words, x: seq<word>)
    requires x == ABC_BLOCK && After(32, v, x, Words(0x790a77fb, 0x726342d3, 0xa62884aa, 0x9f47e4f8))
    ensures After(48, v, x, Words(0x7f2e507b, 0x7beb9700, 0x8fae6399, 0x99d9679d))
  {
    hide After;
    Operations36(v, x, Words(0x790a77fb, 0x726342d3, 0xa62884aa, 0x9f47e4f8),
                  Words(0xb3707ebf, 0x3b0875c7, 0x8d212ff5, 0x60127b2e));
    Operations40(v, x, Words(0xb3707ebf, 0x3b0875c7, 0x8d212ff5, 0x60127b2e),
                  Words(0x21b117b9, 0x5a2f5ea5, 0x3575227e, 0x6e7429d5));
    Operations44(v, x, Words(0x21b117b9, 0x5a2f5ea5, 0x3575227e, 0x6e7429d5),
                  Words(0x11de1779, 0x4c6124f4, 0x31c465ca, 0xfadcaa38));
    Operations48(v, x, Words(0x11de1779, 0x4c6124f4, 0x31c465ca, 0xfadcaa38),
                  Words(0x7f2e507b, 0x7beb9700, 0x8fae6399, 0x99d9679d));
  }

  lemma AbcTo64(v: Words, x: seq<word>)
    requires x == ABC_BLOCK && After(48, v, x, Words(0x7f2e507b, 0x7beb9700, 0x8fae6399, 0x99d9679d))
    ensures After(64, v, x, Words(0x310ade8f, 0xc08226b3, 0xe484b9d8, 0x624d8cb2))
  {
    hide After;
    Operations52(v, x, Words(0x7f2e507b, 0x7beb9700, 0x8fae6399, 0x99d9679d),
                  Words(0x7b201df8, 0x8bf025c4, 0xb298cefd, 0xf4e8e96e));
    Operations56(v, x, Words(0x7b201df8, 0x8bf025c4, 0xb298cefd, 0xf4e8e96e),
                  Words(0x06cc5e8a, 0x3bfa2c27, 0x7d632dd0, 0x5b0d97aa));
    Operations60(v, x, Words(0x06cc5e8a, 0x3bfa2c27, 0x7d632dd0, 0x5b0d97aa),
                  Words(0x7f81cc35, 0x7327d604, 0x4f9dbe3f, 0x094454ab));
    Operations64(v, x, Words(0x7f81cc35, 0x7327d604, 0x4f9dbe3f, 0x094454ab),
                  Words(0x310ade8f, 0xc08226b3, 0xe484b9d8, 0x624d8cb2));
  }

  lemma AbcOperations(v: Words)
    requires v == Words(0x67452301, 0xefcdab89, 0x98badcfe, 0x10325476)
    ensures After(64, v, ABC_BLOCK, Words(0x310ade8f, 0xc08226b3, 0xe484b9d8, 0x624d8cb2))
  {
    hide After;
    Start(v, ABC_BLOCK);
    AbcTo16(v, ABC_BLOCK);
    AbcTo32(v, ABC_BLOCK);
    AbcTo48(v, ABC_BLOCK);
    AbcTo64(v, ABC_BLOCK);
  }

  lemma AbcDecoded()
    ensures |Padded([0x61, 0x62, 0x63])| == 64 && Decoded(Padded([0x61, 0x62, 0x63])) == ABC_BLOCK
  {
    hide Decoded, Padded;
    var m: seq<byte> := [0x61, 0x62, 0x63];
    assert Word(Head(m)) == 0x80636261;
    forall i | 0 <= i < 16
      ensures |Padded(m)| == 64 && Decoded(Padded(m))[i] == ABC_BLOCK[i]
    {
      ShortDecoded(m, i);
    }
  }

  lemma AbcSum()
    ensures Sum(INITIAL, Words(0x310ade8f, 0xc08226b3, 0xe484b9d8, 0x624d8cb2))
      == Words(0x98500190, 0xb04fd23c, 0x7d3f96d6, 0x727fe128)
  {}

  lemma AbcOutput()
    ensures Output(Words(0x98500190, 0xb04fd23c, 0x7d3f96d6, 0x727fe128)) == [
      0x90, 0x01, 0x50, 0x98, 0x3c, 0xd2, 0x4f, 0xb0, 0xd6, 0x96, 0x3f, 0x7d, 0x28, 0xe1, 0x7f, 0x72]
  {}

  /** MD5 ("abc") */
  lemma Abc()
    ensures Digest([0x61, 0x62, 0x63]) == [
      0x90, 0x01, 0x50, 0x98, 0x3c, 0xd2, 0x4f, 0xb0, 0xd6, 0x96, 0x3f, 0x7d, 0x28, 0xe1, 0x7f, 0x72]
    ensures HashOf([0x61, 0x62, 0x63]) == 0x98500190
  {
    hide After, Decoded, Padded, Digest, Sum, Output;
    AbcDecoded();
    AbcOperations(INITIAL);
    DigestOne([0x61, 0x62, 0x63], ABC_BLOCK, Words(0x310ade8f, 0xc08226b3, 0xe484b9d8, 0x624d8cb2));
    AbcSum();
    AbcOutput();
  }

}
