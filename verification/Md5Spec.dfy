/** MD5 as RFC 1321 defines it, on whole messages. */
module Md5Spec {

  type Octet = bv8
  type Word = bv32

  const WORD_RANGE: nat := 0x1_0000_0000

  /** The four working words A, B, C, D. */
  datatype State = State(a: Word, b: Word, c: Word, d: Word)

  // ---- section 3.4: processing one block of 16 words --------------------------------

  function F(x: Word, y: Word, z: Word): Word { (x & y) | (!x & z) }
  function G(x: Word, y: Word, z: Word): Word { (x & z) | (y & !z) }
  function H(x: Word, y: Word, z: Word): Word { x ^ y ^ z }
  function I(x: Word, y: Word, z: Word): Word { y ^ (x | !z) }

  /** Addition modulo 2^32. */
  function Add(x: Word, y: Word): Word { x + y }

  function RotateLeft(x: Word, s: nat): Word
    requires s <= 32
  {
    (x << s) | (x >> (32 - s))
  }

  /** T[i + 1]: the integer part of 4294967296 times abs(sin(i + 1)); one table a round. */
  function T(i: nat): Word {
    if i < 16 then T1(i) else if i < 32 then T2(i) else if i < 48 then T3(i) else T4(i)
  }

  function T1(i: nat): Word {
    match i
    case 0 => 0xd76aa478 case 1 => 0xe8c7b756 case 2 => 0x242070db case 3 => 0xc1bdceee
    case 4 => 0xf57c0faf case 5 => 0x4787c62a case 6 => 0xa8304613 case 7 => 0xfd469501
    case 8 => 0x698098d8 case 9 => 0x8b44f7af case 10 => 0xffff5bb1 case 11 => 0x895cd7be
    case 12 => 0x6b901122 case 13 => 0xfd987193 case 14 => 0xa679438e case _ => 0x49b40821
  }

  function T2(i: nat): Word {
    match i
    case 16 => 0xf61e2562 case 17 => 0xc040b340 case 18 => 0x265e5a51 case 19 => 0xe9b6c7aa
    case 20 => 0xd62f105d case 21 => 0x02441453 case 22 => 0xd8a1e681 case 23 => 0xe7d3fbc8
    case 24 => 0x21e1cde6 case 25 => 0xc33707d6 case 26 => 0xf4d50d87 case 27 => 0x455a14ed
    case 28 => 0xa9e3e905 case 29 => 0xfcefa3f8 case 30 => 0x676f02d9 case _ => 0x8d2a4c8a
  }

  function T3(i: nat): Word {
    match i
    case 32 => 0xfffa3942 case 33 => 0x8771f681 case 34 => 0x6d9d6122 case 35 => 0xfde5380c
    case 36 => 0xa4beea44 case 37 => 0x4bdecfa9 case 38 => 0xf6bb4b60 case 39 => 0xbebfbc70
    case 40 => 0x289b7ec6 case 41 => 0xeaa127fa case 42 => 0xd4ef3085 case 43 => 0x04881d05
    case 44 => 0xd9d4d039 case 45 => 0xe6db99e5 case 46 => 0x1fa27cf8 case _ => 0xc4ac5665
  }

  function T4(i: nat): Word {
    match i
    case 48 => 0xf4292244 case 49 => 0x432aff97 case 50 => 0xab9423a7 case 51 => 0xfc93a039
    case 52 => 0x655b59c3 case 53 => 0x8f0ccc92 case 54 => 0xffeff47d case 55 => 0x85845dd1
    case 56 => 0x6fa87e4f case 57 => 0xfe2ce6e0 case 58 => 0xa3014314 case 59 => 0x4e0811a1
    case 60 => 0xf7537e82 case 61 => 0xbd3af235 case 62 => 0x2ad7d2bb case _ => 0xeb86d391
  }

  function Shift(i: nat): (s: nat)
    ensures s <= 32
  {
    match (i / 16, i % 4)
    case (0, 0) => 7 case (0, 1) => 12 case (0, 2) => 17 case (0, 3) => 22
    case (1, 0) => 5 case (1, 1) => 9 case (1, 2) => 14 case (1, 3) => 20
    case (2, 0) => 4 case (2, 1) => 11 case (2, 2) => 16 case (2, 3) => 23
    case (3, 0) => 6 case (3, 1) => 10 case (3, 2) => 15 case (_, _) => 21
  }

  /** Which word of the block operation `i` uses. */
  function Index(i: nat): (k: nat)
    ensures k < 16
  {
    match i / 16
    case 0 => i % 16
    case 1 => (5 * i + 1) % 16
    case 2 => (3 * i + 5) % 16
    case _ => 7 * i % 16
  }

  function Mix(i: nat, x: Word, y: Word, z: Word): Word {
    match i / 16 case 0 => F(x, y, z) case 1 => G(x, y, z) case 2 => H(x, y, z) case _ => I(x, y, z)
  }

  /** Operation `i`: a = b + ((a + Mix(b, c, d) + X[k] + T[i + 1]) <<< s), then the words
      change places. */
  function Operation(i: nat, s: State, x: seq<Word>): State
    requires |x| == 16
  {
    State(s.d, Add(s.b, RotateLeft(Add(Add(Add(s.a, Mix(i, s.b, s.c, s.d)), x[Index(i)]), T(i)), Shift(i))), s.b, s.c)
  }

  function Operations(n: nat, s: State, x: seq<Word>): State
    requires |x| == 16
    decreases |x|, n
  {
    if n == 0 then s else Operation(n - 1, Operations(n - 1, s, x), x)
  }

  function Compress(s: State, x: seq<Word>): State
    requires |x| == 16
  {
    var t := Operations(64, s, x);
    State(Add(s.a, t.a), Add(s.b, t.b), Add(s.c, t.c), Add(s.d, t.d))
  }

  // ---- sections 3.1 to 3.3: padding, length, initial words --------------------------

  const Initial := State(0x67452301, 0xefcdab89, 0x98badcfe, 0x10325476)

  /** Four bytes, the low-order one first. */
  function WordAt(b: seq<Octet>, i: nat): Word
    requires 4 * i + 4 <= |b|
  {
    b[4 * i] as Word | (b[4 * i + 1] as Word << 8) | (b[4 * i + 2] as Word << 16) | (b[4 * i + 3] as Word << 24)
  }

  function Words(b: seq<Octet>): (w: seq<Word>)
    ensures |w| == |b| / 4
  {
    seq(|b| / 4, i requires 0 <= i < |b| / 4 => WordAt(b, i))
  }

  function Zeros(n: nat): (z: seq<Octet>)
    ensures |z| == n
    ensures forall k :: 0 <= k < n ==> z[k] == 0
  {
    seq(n, _ => 0)
  }

  /** Number of zero bytes after the byte 0x80 that make the length 56 modulo 64. */
  function PadZeros(n: nat): (z: nat)
    ensures z < 64 && (n + 1 + z) % 64 == 56
  {
    (55 - n) % 64
  }

  function Padded(m: seq<Octet>): (p: seq<Octet>)
    ensures |p| % 64 == 56
  {
    m + [0x80] + Zeros(PadZeros(|m|))
  }

  /** The length in bits modulo 2^64, low-order word first. */
  function LengthLow(n: nat): Word {
    (8 * n % WORD_RANGE) as Word
  }

  function LengthHigh(n: nat): Word {
    (8 * n / WORD_RANGE % WORD_RANGE) as Word
  }

  /** Blocks 0 to q - 1 of a message. */
  function Blocks(m: seq<Octet>, q: nat): State
    requires 64 * q <= |m|
  {
    if q == 0 then Initial else Compress(Blocks(m, q - 1), Words(m[64 * (q - 1)..64 * q]))
  }

  /** The state after the whole message: the last block ends with the length. */
  function Md5State(m: seq<Octet>): State {
    var p := Padded(m);
    var q := |p| / 64;
    Compress(Blocks(p, q), Words(p[64 * q..]) + [LengthLow(|m|), LengthHigh(|m|)])
  }

  // ---- section 3.5: output ----------------------------------------------------------

  function WordBytes(w: Word): (b: seq<Octet>)
    ensures |b| == 4
  {
    var low: Word := 0xff;
    [(w & low) as Octet, ((w >> 8) & low) as Octet, ((w >> 16) & low) as Octet, ((w >> 24) & low) as Octet]
  }

  function StateBytes(s: State): (b: seq<Octet>)
    ensures |b| == 16
  {
    WordBytes(s.a) + WordBytes(s.b) + WordBytes(s.c) + WordBytes(s.d)
  }

  function Md5(m: seq<Octet>): (digest: seq<Octet>)
    ensures |digest| == 16
  {
    StateBytes(Md5State(m))
  }

  // ---- prefixes ---------------------------------------------------------------------

  lemma {:induction false} BlocksOfPrefix(m: seq<Octet>, more: seq<Octet>, q: nat)
    requires 64 * q <= |m|
    ensures Blocks(m + more, q) == Blocks(m, q)
  {
    hide Compress;
    if q > 0 {
      BlocksOfPrefix(m, more, q - 1);
      assert (m + more)[64 * (q - 1)..64 * q] == m[64 * (q - 1)..64 * q];
    }
  }
}
