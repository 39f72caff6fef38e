/** MD5 as sections 3.1 to 3.5 of RFC 1321 define it, and the block functions of two implementations. */
module Md5 {
  type byte = bv8
  type word = bv32

  datatype Words = Words(a: word, b: word, c: word, d: word)

  // ---------------------------------------------------------------- the definition

  function F(x: word, y: word, z: word): word { (x & y) | (!x & z) }
  function G(x: word, y: word, z: word): word { (x & z) | (y & !z) }
  function H(x: word, y: word, z: word): word { x ^ y ^ z }
  function I(x: word, y: word, z: word): word { y ^ (x | !z) }

  function Mix(i: nat, x: word, y: word, z: word): word {
    if i < 16 then F(x, y, z) else if i < 32 then G(x, y, z) else if i < 48 then H(x, y, z) else I(x, y, z)
  }

  /** Which word of the block operation `i` takes. */
  function K(i: nat): (r: nat)
    ensures r < 16
  {
    if i < 16 then i else if i < 32 then (5 * i + 1) % 16 else if i < 48 then (3 * i + 5) % 16 else 7 * i % 16
  }

  /** By how many bits it rotates. */
  function S(i: nat): (r: bv6)
    ensures 0 < r < 32
  {
    var j := i % 4;
    if i < 16 then (if j == 0 then 7 else if j == 1 then 12 else if j == 2 then 17 else 22)
    else if i < 32 then (if j == 0 then 5 else if j == 1 then 9 else if j == 2 then 14 else 20)
    else if i < 48 then (if j == 0 then 4 else if j == 1 then 11 else if j == 2 then 16 else 23)
    else (if j == 0 then 6 else if j == 1 then 10 else if j == 2 then 15 else 21)
  }

  /** The integer part of 4294967296 times abs(sin(i + 1)). */
  function T(i: nat): word {
    match i
    case 0 => 0xd76aa478
    case 1 => 0xe8c7b756
    case 2 => 0x242070db
    case 3 => 0xc1bdceee
    case 4 => 0xf57c0faf
    case 5 => 0x4787c62a
    case 6 => 0xa8304613
    case 7 => 0xfd469501
    case 8 => 0x698098d8
    case 9 => 0x8b44f7af
    case 10 => 0xffff5bb1
    case 11 => 0x895cd7be
    case 12 => 0x6b901122
    case 13 => 0xfd987193
    case 14 => 0xa679438e
    case 15 => 0x49b40821
    case 16 => 0xf61e2562
    case 17 => 0xc040b340
    case 18 => 0x265e5a51
    case 19 => 0xe9b6c7aa
    case 20 => 0xd62f105d
    case 21 => 0x02441453
    case 22 => 0xd8a1e681
    case 23 => 0xe7d3fbc8
    case 24 => 0x21e1cde6
    case 25 => 0xc33707d6
    case 26 => 0xf4d50d87
    case 27 => 0x455a14ed
    case 28 => 0xa9e3e905
    case 29 => 0xfcefa3f8
    case 30 => 0x676f02d9
    case 31 => 0x8d2a4c8a
    case 32 => 0xfffa3942
    case 33 => 0x8771f681
    case 34 => 0x6d9d6122
    case 35 => 0xfde5380c
    case 36 => 0xa4beea44
    case 37 => 0x4bdecfa9
    case 38 => 0xf6bb4b60
    case 39 => 0xbebfbc70
    case 40 => 0x289b7ec6
    case 41 => 0xeaa127fa
    case 42 => 0xd4ef3085
    case 43 => 0x04881d05
    case 44 => 0xd9d4d039
    case 45 => 0xe6db99e5
    case 46 => 0x1fa27cf8
    case 47 => 0xc4ac5665
    case 48 => 0xf4292244
    case 49 => 0x432aff97
    case 50 => 0xab9423a7
    case 51 => 0xfc93a039
    case 52 => 0x655b59c3
    case 53 => 0x8f0ccc92
    case 54 => 0xffeff47d
    case 55 => 0x85845dd1
    case 56 => 0x6fa87e4f
    case 57 => 0xfe2ce6e0
    case 58 => 0xa3014314
    case 59 => 0x4e0811a1
    case 60 => 0xf7537e82
    case 61 => 0xbd3af235
    case 62 => 0x2ad7d2bb
    case _ => 0xeb86d391
  }

  function Rotated(x: word, s: bv6): word
    requires 0 < s < 32
  {
    (x << s) | (x >> (32 - s))
  }

  /** What is rotated. */
  function Total(a: word, mix: word, x: word, t: word): word { a + mix + x + t }

  function Plus(b: word, r: word): word { b + r }

  /** Operation `i`: the registers take turns, so the new value stands second afterwards. */
  function Operation(i: nat, w: Words, x: seq<word>): Words
    requires |x| == 16
  {
    var total := Total(w.a, Mix(i, w.b, w.c, w.d), x[K(i)], T(i));
    Words(w.d, Plus(w.b, Rotated(total, S(i))), w.b, w.c)
  }

  function Operations(n: nat, w: Words, x: seq<word>): Words
    requires |x| == 16
  {
    if n == 0 then w else Operation(n - 1, Operations(n - 1, w, x), x)
  }

  /** Four bytes, the lowest first. */
  function Word(b: seq<byte>): word
    requires |b| == 4
  {
    (b[0] as word) | ((b[1] as word) << 8) | ((b[2] as word) << 16) | ((b[3] as word) << 24)
  }

  function Decoded(block: seq<byte>): (x: seq<word>)
    requires |block| == 64
    ensures |x| == 16
  {
    seq(16, i requires 0 <= i < 16 => Word(block[4 * i..4 * i + 4]))
  }

  function Sum(v: Words, w: Words): Words {
    Words(v.a + w.a, v.b + w.b, v.c + w.c, v.d + w.d)
  }

  function Block(w: Words, block: seq<byte>): Words
    requires |block| == 64
  {
    Sum(w, Operations(64, w, Decoded(block)))
  }

  function Blocks(w: Words, s: seq<byte>): Words
    requires |s| % 64 == 0
  {
    if s == [] then w else Block(Blocks(w, s[..|s| - 64]), s[|s| - 64..])
  }

  const INITIAL: Words := Words(0x67452301, 0xefcdab89, 0x98badcfe, 0x10325476)

  // ---------------------------------------------------------------- the two tables of operations

  datatype Row = Row(k: nat, s: bv6, t: word)

  const T_MASK: word := 0xffff_ffff

  /** The operations of the proxy's implementation, in the order of the code. */
  function ProxyRow(i: nat): Row {
    match i
    case 0 => Row(0, 7, T_MASK ^ 0x28955b87)
    case 1 => Row(1, 12, T_MASK ^ 0x173848a9)
    case 2 => Row(2, 17, 0x242070db)
    case 3 => Row(3, 22, T_MASK ^ 0x3e423111)
    case 4 => Row(4, 7, T_MASK ^ 0x0a83f050)
    case 5 => Row(5, 12, 0x4787c62a)
    case 6 => Row(6, 17, T_MASK ^ 0x57cfb9ec)
    case 7 => Row(7, 22, T_MASK ^ 0x02b96afe)
    case 8 => Row(8, 7, 0x698098d8)
    case 9 => Row(9, 12, T_MASK ^ 0x74bb0850)
    case 10 => Row(10, 17, T_MASK ^ 0x0000a44e)
    case 11 => Row(11, 22, T_MASK ^ 0x76a32841)
    case 12 => Row(12, 7, 0x6b901122)
    case 13 => Row(13, 12, T_MASK ^ 0x02678e6c)
    case 14 => Row(14, 17, T_MASK ^ 0x5986bc71)
    case 15 => Row(15, 22, 0x49b40821)
    case 16 => Row(1, 5, T_MASK ^ 0x09e1da9d)
    case 17 => Row(6, 9, T_MASK ^ 0x3fbf4cbf)
    case 18 => Row(11, 14, 0x265e5a51)
    case 19 => Row(0, 20, T_MASK ^ 0x16493855)
    case 20 => Row(5, 5, T_MASK ^ 0x29d0efa2)
    case 21 => Row(10, 9, 0x02441453)
    case 22 => Row(15, 14, T_MASK ^ 0x275e197e)
    case 23 => Row(4, 20, T_MASK ^ 0x182c0437)
    case 24 => Row(9, 5, 0x21e1cde6)
    case 25 => Row(14, 9, T_MASK ^ 0x3cc8f829)
    case 26 => Row(3, 14, T_MASK ^ 0x0b2af278)
    case 27 => Row(8, 20, 0x455a14ed)
    case 28 => Row(13, 5, T_MASK ^ 0x561c16fa)
    case 29 => Row(2, 9, T_MASK ^ 0x03105c07)
    case 30 => Row(7, 14, 0x676f02d9)
    case 31 => Row(12, 20, T_MASK ^ 0x72d5b375)
    case 32 => Row(5, 4, T_MASK ^ 0x0005c6bd)
    case 33 => Row(8, 11, T_MASK ^ 0x788e097e)
    case 34 => Row(11, 16, 0x6d9d6122)
    case 35 => Row(14, 23, T_MASK ^ 0x021ac7f3)
    case 36 => Row(1, 4, T_MASK ^ 0x5b4115bb)
    case 37 => Row(4, 11, 0x4bdecfa9)
    case 38 => Row(7, 16, T_MASK ^ 0x0944b49f)
    case 39 => Row(10, 23, T_MASK ^ 0x4140438f)
    case 40 => Row(13, 4, 0x289b7ec6)
    case 41 => Row(0, 11, T_MASK ^ 0x155ed805)
    case 42 => Row(3, 16, T_MASK ^ 0x2b10cf7a)
    case 43 => Row(6, 23, 0x04881d05)
    case 44 => Row(9, 4, T_MASK ^ 0x262b2fc6)
    case 45 => Row(12, 11, T_MASK ^ 0x1924661a)
    case 46 => Row(15, 16, 0x1fa27cf8)
    case 47 => Row(2, 23, T_MASK ^ 0x3b53a99a)
    case 48 => Row(0, 6, T_MASK ^ 0x0bd6ddbb)
    case 49 => Row(7, 10, 0x432aff97)
    case 50 => Row(14, 15, T_MASK ^ 0x546bdc58)
    case 51 => Row(5, 21, T_MASK ^ 0x036c5fc6)
    case 52 => Row(12, 6, 0x655b59c3)
    case 53 => Row(3, 10, T_MASK ^ 0x70f3336d)
    case 54 => Row(10, 15, T_MASK ^ 0x00100b82)
    case 55 => Row(1, 21, T_MASK ^ 0x7a7ba22e)
    case 56 => Row(8, 6, 0x6fa87e4f)
    case 57 => Row(15, 10, T_MASK ^ 0x01d3191f)
    case 58 => Row(6, 15, T_MASK ^ 0x5cfebceb)
    case 59 => Row(13, 21, 0x4e0811a1)
    case 60 => Row(4, 6, T_MASK ^ 0x08ac817d)
    case 61 => Row(11, 10, T_MASK ^ 0x42c50dca)
    case 62 => Row(2, 15, 0x2ad7d2bb)
    case _ => Row(9, 21, T_MASK ^ 0x14792c6e)
  }

  /** The operations of the client's implementation. */
  function ClientRow(i: nat): Row {
    match i
    case 0 => Row(0, 7, 0xD76AA478)
    case 1 => Row(1, 12, 0xE8C7B756)
    case 2 => Row(2, 17, 0x242070DB)
    case 3 => Row(3, 22, 0xC1BDCEEE)
    case 4 => Row(4, 7, 0xF57C0FAF)
    case 5 => Row(5, 12, 0x4787C62A)
    case 6 => Row(6, 17, 0xA8304613)
    case 7 => Row(7, 22, 0xFD469501)
    case 8 => Row(8, 7, 0x698098D8)
    case 9 => Row(9, 12, 0x8B44F7AF)
    case 10 => Row(10, 17, 0xFFFF5BB1)
    case 11 => Row(11, 22, 0x895CD7BE)
    case 12 => Row(12, 7, 0x6B901122)
    case 13 => Row(13, 12, 0xFD987193)
    case 14 => Row(14, 17, 0xA679438E)
    case 15 => Row(15, 22, 0x49B40821)
    case 16 => Row(1, 5, 0xF61E2562)
    case 17 => Row(6, 9, 0xC040B340)
    case 18 => Row(11, 14, 0x265E5A51)
    case 19 => Row(0, 20, 0xE9B6C7AA)
    case 20 => Row(5, 5, 0xD62F105D)
    case 21 => Row(10, 9, 0x02441453)
    case 22 => Row(15, 14, 0xD8A1E681)
    case 23 => Row(4, 20, 0xE7D3FBC8)
    case 24 => Row(9, 5, 0x21E1CDE6)
    case 25 => Row(14, 9, 0xC33707D6)
    case 26 => Row(3, 14, 0xF4D50D87)
    case 27 => Row(8, 20, 0x455A14ED)
    case 28 => Row(13, 5, 0xA9E3E905)
    case 29 => Row(2, 9, 0xFCEFA3F8)
    case 30 => Row(7, 14, 0x676F02D9)
    case 31 => Row(12, 20, 0x8D2A4C8A)
    case 32 => Row(5, 4, 0xFFFA3942)
    case 33 => Row(8, 11, 0x8771F681)
    case 34 => Row(11, 16, 0x6D9D6122)
    case 35 => Row(14, 23, 0xFDE5380C)
    case 36 => Row(1, 4, 0xA4BEEA44)
    case 37 => Row(4, 11, 0x4BDECFA9)
    case 38 => Row(7, 16, 0xF6BB4B60)
    case 39 => Row(10, 23, 0xBEBFBC70)
    case 40 => Row(13, 4, 0x289B7EC6)
    case 41 => Row(0, 11, 0xEAA127FA)
    case 42 => Row(3, 16, 0xD4EF3085)
    case 43 => Row(6, 23, 0x04881D05)
    case 44 => Row(9, 4, 0xD9D4D039)
    case 45 => Row(12, 11, 0xE6DB99E5)
    case 46 => Row(15, 16, 0x1FA27CF8)
    case 47 => Row(2, 23, 0xC4AC5665)
    case 48 => Row(0, 6, 0xF4292244)
    case 49 => Row(7, 10, 0x432AFF97)
    case 50 => Row(14, 15, 0xAB9423A7)
    case 51 => Row(5, 21, 0xFC93A039)
    case 52 => Row(12, 6, 0x655B59C3)
    case 53 => Row(3, 10, 0x8F0CCC92)
    case 54 => Row(10, 15, 0xFFEFF47D)
    case 55 => Row(1, 21, 0x85845DD1)
    case 56 => Row(8, 6, 0x6FA87E4F)
    case 57 => Row(15, 10, 0xFE2CE6E0)
    case 58 => Row(6, 15, 0xA3014314)
    case 59 => Row(13, 21, 0x4E0811A1)
    case 60 => Row(4, 6, 0xF7537E82)
    case 61 => Row(11, 10, 0xBD3AF235)
    case 62 => Row(2, 15, 0x2AD7D2BB)
    case _ => Row(9, 21, 0xEB86D391)
  }

  lemma ProxyRound1(i: nat)
    requires 0 <= i < 16
    ensures ProxyRow(i) == Row(K(i), S(i), T(i))
  {}

  lemma ProxyRound2(i: nat)
    requires 16 <= i < 32
    ensures ProxyRow(i) == Row(K(i), S(i), T(i))
  {}

  lemma ProxyRound3(i: nat)
    requires 32 <= i < 48
    ensures ProxyRow(i) == Row(K(i), S(i), T(i))
  {}

  lemma ProxyRound4(i: nat)
    requires 48 <= i < 64
    ensures ProxyRow(i) == Row(K(i), S(i), T(i))
  {}

  lemma ProxyRows(i: nat)
    requires i < 64
    ensures ProxyRow(i) == Row(K(i), S(i), T(i))
  {
    hide ProxyRow, K, S, T;
    if i < 16 { ProxyRound1(i); }
    else if i < 32 { ProxyRound2(i); }
    else if i < 48 { ProxyRound3(i); }
    else { ProxyRound4(i); }
  }

  lemma ClientRound1(i: nat)
    requires 0 <= i < 16
    ensures ClientRow(i) == Row(K(i), S(i), T(i))
  {}

  lemma ClientRound2(i: nat)
    requires 16 <= i < 32
    ensures ClientRow(i) == Row(K(i), S(i), T(i))
  {}

  lemma ClientRound3(i: nat)
    requires 32 <= i < 48
    ensures ClientRow(i) == Row(K(i), S(i), T(i))
  {}

  lemma ClientRound4(i: nat)
    requires 48 <= i < 64
    ensures ClientRow(i) == Row(K(i), S(i), T(i))
  {}

  lemma ClientRows(i: nat)
    requires i < 64
    ensures ClientRow(i) == Row(K(i), S(i), T(i))
  {
    hide ClientRow, K, S, T;
    if i < 16 { ClientRound1(i); }
    else if i < 32 { ClientRound2(i); }
    else if i < 48 { ClientRound3(i); }
    else { ClientRound4(i); }
  }

  // ---------------------------------------------------------------- the two block functions

  /** One operation as the proxy's code writes it. */
  function ProxyOperation(i: nat, w: Words, x: seq<word>): Words
    requires i < 64 && |x| == 16
  {
    ProxyRows(i);
    var row := ProxyRow(i);
    var t := Total(w.a, Mix(i, w.b, w.c, w.d), x[row.k], row.t);
    Words(w.d, Plus(Rotated(t, row.s), w.b), w.b, w.c)
  }

  lemma PlusCommutes(a: word, b: word)
    ensures Plus(a, b) == Plus(b, a)
  {}

  lemma ProxySame(i: nat, w: Words, x: seq<word>)
    requires i < 64 && |x| == 16
    ensures ProxyOperation(i, w, x) == Operation(i, w, x)
  {
    hide ProxyRow, K, S, T, Mix, Rotated, Total, Plus;
    ProxyRows(i);
    PlusCommutes(w.b, Rotated(Total(w.a, Mix(i, w.b, w.c, w.d), x[K(i)], T(i)), S(i)));
  }

  /** The client's forms of the auxiliary functions. */
  function ClientF(x: word, y: word, z: word): word { z ^ (x & (y ^ z)) }
  function ClientG(x: word, y: word, z: word): word { y ^ (z & (x ^ y)) }

  function ClientMix(i: nat, x: word, y: word, z: word): word {
    if i < 16 then ClientF(x, y, z) else if i < 32 then ClientG(x, y, z) else if i < 48 then H(x, y, z) else I(x, y, z)
  }

  lemma ChoosesF(x: word, y: word, z: word)
    ensures z ^ (x & (y ^ z)) == (x & y) | (!x & z)
  {}

  lemma ChoosesG(x: word, y: word, z: word)
    ensures y ^ (z & (x ^ y)) == (x & z) | (y & !z)
  {}

  lemma SameF(x: word, y: word, z: word)
    ensures ClientF(x, y, z) == F(x, y, z)
  {
    ChoosesF(x, y, z);
  }

  lemma SameG(x: word, y: word, z: word)
    ensures ClientG(x, y, z) == G(x, y, z)
  {
    ChoosesG(x, y, z);
  }

  lemma MixSame(i: nat, x: word, y: word, z: word)
    ensures ClientMix(i, x, y, z) == Mix(i, x, y, z)
  {
    hide F, G, H, I, ClientF, ClientG;
    SameF(x, y, z);
    SameG(x, y, z);
  }

  function ClientTotal(a: word, mix: word, x: word, t: word): word { a + (mix + x + t) }

  lemma TotalSame(a: word, mix: word, x: word, t: word)
    ensures ClientTotal(a, mix, x, t) == Total(a, mix, x, t)
  {}

  /** One operation as the client's code writes it. */
  function ClientOperation(i: nat, w: Words, x: seq<word>): Words
    requires i < 64 && |x| == 16
  {
    ClientRows(i);
    var row := ClientRow(i);
    var a := ClientTotal(w.a, ClientMix(i, w.b, w.c, w.d), x[row.k], row.t);
    Words(w.d, Plus(Rotated(a, row.s), w.b), w.b, w.c)
  }

  lemma ClientSame(i: nat, w: Words, x: seq<word>)
    requires i < 64 && |x| == 16
    ensures ClientOperation(i, w, x) == Operation(i, w, x)
  {
    hide ClientRow, K, S, T, Mix, ClientMix, Rotated, Total, ClientTotal, Plus;
    ClientRows(i);
    MixSame(i, w.b, w.c, w.d);
    TotalSame(w.a, Mix(i, w.b, w.c, w.d), x[K(i)], T(i));
    PlusCommutes(w.b, Rotated(Total(w.a, Mix(i, w.b, w.c, w.d), x[K(i)], T(i)), S(i)));
  }

  /** md5_process of the proxy. */
  method ProxyProcess(w: Words, data: seq<byte>) returns (r: Words)
    requires |data| == 64
    ensures r == Block(w, data)
  {
    hide Decoded, ProxyOperation, Operation, Sum;
    var x := Decoded(data);
    var v := w;
    for i := 0 to 64
      invariant v == Operations(i, w, x)
    {
      ProxySame(i, v, x);
      v := ProxyOperation(i, v, x);
    }
    r := Sum(w, v);
  }

  /** md5_process of the client. */
  method ClientProcess(w: Words, data: seq<byte>) returns (r: Words)
    requires |data| == 64
    ensures r == Block(w, data)
  {
    hide Decoded, ClientOperation, Operation, Sum;
    var x := Decoded(data);
    var v := w;
    for i := 0 to 64
      invariant v == Operations(i, w, x)
    {
      ClientSame(i, v, x);
      v := ClientOperation(i, v, x);
    }
    r := Sum(w, v);
  }

  // ---------------------------------------------------------------- padding and output

  /** The bytes of a word, the lowest first. */
  function Bytes(w: word): (r: seq<byte>)
    ensures |r| == 4
  {
    [(w & 0xff) as byte, ((w >> 8) & 0xff) as byte, ((w >> 16) & 0xff) as byte, ((w >> 24) & 0xff) as byte]
  }

  const TWO32: nat := 0x1_0000_0000

  /** The two words of the length in bits of `n` bytes. */
  function Low(n: nat): (r: nat)
    ensures r < TWO32
  {
    8 * n % TWO32
  }

  function High(n: nat): (r: nat)
    ensures r < TWO32
  {
    8 * n / TWO32 % TWO32
  }

  function Zeros(n: nat): (r: seq<byte>)
    ensures |r| == n
  {
    seq(n, _ => 0)
  }

  function Padding(n: nat): (r: seq<byte>)
    ensures 0 < |r| <= 64 && (n + |r|) % 64 == 56
  {
    [0x80] + Zeros((55 - n) % 64)
  }

  /** A number of 64 bits in two words as bytes. */
  function TwoWords(low: nat, high: nat): (r: seq<byte>)
    requires low < TWO32 && high < TWO32
    ensures |r| == 8
  {
    Bytes(low as word) + Bytes(high as word)
  }

  function Length(n: nat): (r: seq<byte>)
    ensures |r| == 8
  {
    TwoWords(Low(n), High(n))
  }

  function Padded(m: seq<byte>): (r: seq<byte>)
    ensures |r| == |m| + |Padding(|m|)| + 8
  {
    m + Padding(|m|) + Length(|m|)
  }

  lemma WholeBlocks(n: nat)
    requires n % 64 == 56
    ensures (n + 8) % 64 == 0
  {}

  function Output(w: Words): seq<byte> {
    Bytes(w.a) + Bytes(w.b) + Bytes(w.c) + Bytes(w.d)
  }

  /** The message digest of section 3.5. */
  function Digest(m: seq<byte>): (r: seq<byte>)
    ensures |r| == 16
  {
    WholeBlocks(|m| + |Padding(|m|)|);
    Output(Blocks(INITIAL, Padded(m)))
  }
}
