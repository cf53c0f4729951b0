/** The block function both implementations share, in the source's unrolled form. */
module Md5Transform {
  import opened Md5Spec

  function F1(x: Word, y: Word, z: Word): Word { z ^ (x & (y ^ z)) }
  function F2(x: Word, y: Word, z: Word): Word { F1(z, x, y) }
  function F3(x: Word, y: Word, z: Word): Word { x ^ y ^ z }
  function F4(x: Word, y: Word, z: Word): Word { y ^ (x | !z) }

  /** MD5STEP with the value of its first macro argument. */
  function Md5Step(f: Word, w: Word, x: Word, data: Word, s: nat): Word
    requires s <= 32
  {
    Add(RotateLeft(Add(w, Add(f, data)), s), x)
  }

  function Step1(w: Word, x: Word, y: Word, z: Word, data: Word, s: nat): Word
    requires s <= 32
  { Md5Step(F1(x, y, z), w, x, data, s) }

  function Step2(w: Word, x: Word, y: Word, z: Word, data: Word, s: nat): Word
    requires s <= 32
  { Md5Step(F2(x, y, z), w, x, data, s) }

  function Step3(w: Word, x: Word, y: Word, z: Word, data: Word, s: nat): Word
    requires s <= 32
  { Md5Step(F3(x, y, z), w, x, data, s) }

  function Step4(w: Word, x: Word, y: Word, z: Word, data: Word, s: nat): Word
    requires s <= 32
  { Md5Step(F4(x, y, z), w, x, data, s) }

  /** The optimized choice functions are the standard ones. */
  lemma OptimizedF(x: Word, y: Word, z: Word)
    ensures F1(x, y, z) == F(x, y, z)
  {
    assert z ^ (x & (y ^ z)) == (x & y) | (!x & z);
  }

  lemma OptimizedG(x: Word, y: Word, z: Word)
    ensures F2(x, y, z) == G(x, y, z)
  {
    assert y ^ (z & (x ^ y)) == (x & z) | (y & !z);
  }

  lemma Associate(x: Word, y: Word, z: Word)
    ensures Add(x, Add(y, z)) == Add(Add(x, y), z)
  {
    calc {
      Add(x, Add(y, z));
      x + Add(y, z);
      x + (y + z);
      (x + y) + z;
      Add(x, y) + z;
      Add(Add(x, y), z);
    }
  }

  lemma Reassociate(w: Word, f: Word, m: Word, t: Word)
    ensures Add(w, Add(f, Add(m, t))) == Add(Add(Add(w, f), m), t)
  {
    hide Add;
    Associate(w, f, Add(m, t));
    Associate(Add(w, f), m, t);
  }

  lemma Swap(x: Word, y: Word)
    ensures Add(x, y) == Add(y, x)
  {
  }

  /** The choice function of operation `i`, as the macros write it. */
  function Choice(i: nat, x: Word, y: Word, z: Word): Word {
    match i / 16 case 0 => F1(x, y, z) case 1 => F2(x, y, z) case 2 => F3(x, y, z) case _ => F4(x, y, z)
  }

  lemma ThirdAndFourth(x: Word, y: Word, z: Word)
    ensures F3(x, y, z) == H(x, y, z) && F4(x, y, z) == I(x, y, z)
  {
  }

  lemma ChoiceIsMix(i: nat, x: Word, y: Word, z: Word)
    ensures Choice(i, x, y, z) == Mix(i, x, y, z)
  {
    hide F, G, H, I, F1, F2, F3, F4;
    OptimizedF(x, y, z);
    OptimizedG(x, y, z);
    ThirdAndFourth(x, y, z);
  }

  /** The new word of operation `i`. */
  function NewWord(i: nat, w: Word, x: Word, y: Word, z: Word, m: seq<Word>): Word
    requires |m| == 16
  {
    Md5Step(Choice(i, x, y, z), w, x, Add(m[Index(i)], T(i)), Shift(i))
  }

  /** A step is the operation of RFC 1321 on the mixed words. */
  lemma StepLaw(f: Word, w: Word, x: Word, m: Word, t: Word, k: nat)
    requires k <= 32
    ensures Md5Step(f, w, x, Add(m, t), k) == Add(x, RotateLeft(Add(Add(Add(w, f), m), t), k))
  {
    hide RotateLeft, Add;
    Reassociate(w, f, m, t);
    Swap(RotateLeft(Add(Add(Add(w, f), m), t), k), x);
  }

  lemma StepIsOperation(i: nat, s: State, m: seq<Word>)
    requires |m| == 16
    ensures Operation(i, s, m) == State(s.d, NewWord(i, s.a, s.b, s.c, s.d, m), s.b, s.c)
  {
    hide Add, RotateLeft, Choice, Mix, T, Shift, Index, Md5Step;
    ChoiceIsMix(i, s.b, s.c, s.d);
    StepLaw(Mix(i, s.b, s.c, s.d), s.a, s.b, m[Index(i)], T(i), Shift(i));
  }

  /** Operations `i`, `j`, `k` and `l`, after which the words are back in their places. */
  function FourWords(i: nat, j: nat, k: nat, l: nat, s: State, x: seq<Word>): State
    requires |x| == 16
  {
    var a := NewWord(i, s.a, s.b, s.c, s.d, x);
    var d := NewWord(j, s.d, a, s.b, s.c, x);
    var c := NewWord(k, s.c, d, a, s.b, x);
    State(a, NewWord(l, s.b, c, d, a, x), c, d)
  }

  lemma FourOperations(n: nat, s: State, x: seq<Word>)
    requires |x| == 16
    ensures Operations(n + 4, s, x) == FourWords(n, n + 1, n + 2, n + 3, Operations(n, s, x), x)
  {
    hide NewWord, Operation;
    StepIsOperation(n, Operations(n, s, x), x);
    StepIsOperation(n + 1, Operations(n + 1, s, x), x);
    StepIsOperation(n + 2, Operations(n + 2, s, x), x);
    StepIsOperation(n + 3, Operations(n + 3, s, x), x);
  }

  function RoundWords1(s: State, x: seq<Word>): State
    requires |x| == 16
  {
    FourWords(12, 13, 14, 15, FourWords(8, 9, 10, 11, FourWords(4, 5, 6, 7, FourWords(0, 1, 2, 3, s, x), x), x), x)
  }

  function RoundWords2(s: State, x: seq<Word>): State
    requires |x| == 16
  {
    FourWords(28, 29, 30, 31,
      FourWords(24, 25, 26, 27, FourWords(20, 21, 22, 23, FourWords(16, 17, 18, 19, s, x), x), x), x)
  }

  function RoundWords3(s: State, x: seq<Word>): State
    requires |x| == 16
  {
    FourWords(44, 45, 46, 47,
      FourWords(40, 41, 42, 43, FourWords(36, 37, 38, 39, FourWords(32, 33, 34, 35, s, x), x), x), x)
  }

  function RoundWords4(s: State, x: seq<Word>): State
    requires |x| == 16
  {
    FourWords(60, 61, 62, 63,
      FourWords(56, 57, 58, 59, FourWords(52, 53, 54, 55, FourWords(48, 49, 50, 51, s, x), x), x), x)
  }

  lemma SixteenOperations(n: nat, s: State, x: seq<Word>)
    requires |x| == 16
    ensures Operations(n + 16, s, x) ==
            FourWords(n + 12, n + 13, n + 14, n + 15, FourWords(n + 8, n + 9, n + 10, n + 11,
              FourWords(n + 4, n + 5, n + 6, n + 7,
              FourWords(n, n + 1, n + 2, n + 3, Operations(n, s, x), x), x), x), x)
  {
    hide FourWords, Operation;
    FourOperations(n, s, x);
    FourOperations(n + 4, s, x);
    FourOperations(n + 8, s, x);
    FourOperations(n + 12, s, x);
  }

  lemma AllOperations(s: State, x: seq<Word>)
    requires |x| == 16
    ensures Operations(64, s, x) == RoundWords4(RoundWords3(RoundWords2(RoundWords1(s, x), x), x), x)
  {
    hide FourWords, Operation;
    SixteenOperations(0, s, x);
    SixteenOperations(16, s, x);
    SixteenOperations(32, s, x);
    SixteenOperations(48, s, x);
  }

  // The entries of the tables, one lemma a round.

  lemma Table1()
    ensures T(0) == 0xd76aa478 && T(1) == 0xe8c7b756 && T(2) == 0x242070db && T(3) == 0xc1bdceee
    ensures T(4) == 0xf57c0faf && T(5) == 0x4787c62a && T(6) == 0xa8304613 && T(7) == 0xfd469501
    ensures T(8) == 0x698098d8 && T(9) == 0x8b44f7af && T(10) == 0xffff5bb1 && T(11) == 0x895cd7be
    ensures T(12) == 0x6b901122 && T(13) == 0xfd987193 && T(14) == 0xa679438e && T(15) == 0x49b40821
  {
  }

  lemma Places1()
    ensures Index(0) == 0 && Index(1) == 1 && Index(2) == 2 && Index(3) == 3
    ensures Index(4) == 4 && Index(5) == 5 && Index(6) == 6 && Index(7) == 7
    ensures Index(8) == 8 && Index(9) == 9 && Index(10) == 10 && Index(11) == 11
    ensures Index(12) == 12 && Index(13) == 13 && Index(14) == 14 && Index(15) == 15
    ensures Shift(0) == 7 && Shift(1) == 12 && Shift(2) == 17 && Shift(3) == 22
    ensures Shift(4) == 7 && Shift(5) == 12 && Shift(6) == 17 && Shift(7) == 22
    ensures Shift(8) == 7 && Shift(9) == 12 && Shift(10) == 17 && Shift(11) == 22
    ensures Shift(12) == 7 && Shift(13) == 12 && Shift(14) == 17 && Shift(15) == 22
  {
  }

  lemma Table2()
    ensures T(16) == 0xf61e2562 && T(17) == 0xc040b340 && T(18) == 0x265e5a51 && T(19) == 0xe9b6c7aa
    ensures T(20) == 0xd62f105d && T(21) == 0x02441453 && T(22) == 0xd8a1e681 && T(23) == 0xe7d3fbc8
    ensures T(24) == 0x21e1cde6 && T(25) == 0xc33707d6 && T(26) == 0xf4d50d87 && T(27) == 0x455a14ed
    ensures T(28) == 0xa9e3e905 && T(29) == 0xfcefa3f8 && T(30) == 0x676f02d9 && T(31) == 0x8d2a4c8a
  {
  }

  lemma Places2()
    ensures Index(16) == 1 && Index(17) == 6 && Index(18) == 11 && Index(19) == 0
    ensures Index(20) == 5 && Index(21) == 10 && Index(22) == 15 && Index(23) == 4
    ensures Index(24) == 9 && Index(25) == 14 && Index(26) == 3 && Index(27) == 8
    ensures Index(28) == 13 && Index(29) == 2 && Index(30) == 7 && Index(31) == 12
    ensures Shift(16) == 5 && Shift(17) == 9 && Shift(18) == 14 && Shift(19) == 20
    ensures Shift(20) == 5 && Shift(21) == 9 && Shift(22) == 14 && Shift(23) == 20
    ensures Shift(24) == 5 && Shift(25) == 9 && Shift(26) == 14 && Shift(27) == 20
    ensures Shift(28) == 5 && Shift(29) == 9 && Shift(30) == 14 && Shift(31) == 20
  {
  }

  lemma Table3()
    ensures T(32) == 0xfffa3942 && T(33) == 0x8771f681 && T(34) == 0x6d9d6122 && T(35) == 0xfde5380c
    ensures T(36) == 0xa4beea44 && T(37) == 0x4bdecfa9 && T(38) == 0xf6bb4b60 && T(39) == 0xbebfbc70
    ensures T(40) == 0x289b7ec6 && T(41) == 0xeaa127fa && T(42) == 0xd4ef3085 && T(43) == 0x04881d05
    ensures T(44) == 0xd9d4d039 && T(45) == 0xe6db99e5 && T(46) == 0x1fa27cf8 && T(47) == 0xc4ac5665
  {
  }

  lemma Places3()
    ensures Index(32) == 5 && Index(33) == 8 && Index(34) == 11 && Index(35) == 14
    ensures Index(36) == 1 && Index(37) == 4 && Index(38) == 7 && Index(39) == 10
    ensures Index(40) == 13 && Index(41) == 0 && Index(42) == 3 && Index(43) == 6
    ensures Index(44) == 9 && Index(45) == 12 && Index(46) == 15 && Index(47) == 2
    ensures Shift(32) == 4 && Shift(33) == 11 && Shift(34) == 16 && Shift(35) == 23
    ensures Shift(36) == 4 && Shift(37) == 11 && Shift(38) == 16 && Shift(39) == 23
    ensures Shift(40) == 4 && Shift(41) == 11 && Shift(42) == 16 && Shift(43) == 23
    ensures Shift(44) == 4 && Shift(45) == 11 && Shift(46) == 16 && Shift(47) == 23
  {
  }

  lemma Table4()
    ensures T(48) == 0xf4292244 && T(49) == 0x432aff97 && T(50) == 0xab9423a7 && T(51) == 0xfc93a039
    ensures T(52) == 0x655b59c3 && T(53) == 0x8f0ccc92 && T(54) == 0xffeff47d && T(55) == 0x85845dd1
    ensures T(56) == 0x6fa87e4f && T(57) == 0xfe2ce6e0 && T(58) == 0xa3014314 && T(59) == 0x4e0811a1
    ensures T(60) == 0xf7537e82 && T(61) == 0xbd3af235 && T(62) == 0x2ad7d2bb && T(63) == 0xeb86d391
  {
  }

  lemma Places4()
    ensures Index(48) == 0 && Index(49) == 7 && Index(50) == 14 && Index(51) == 5
    ensures Index(52) == 12 && Index(53) == 3 && Index(54) == 10 && Index(55) == 1
    ensures Index(56) == 8 && Index(57) == 15 && Index(58) == 6 && Index(59) == 13
    ensures Index(60) == 4 && Index(61) == 11 && Index(62) == 2 && Index(63) == 9
    ensures Shift(48) == 6 && Shift(49) == 10 && Shift(50) == 15 && Shift(51) == 21
    ensures Shift(52) == 6 && Shift(53) == 10 && Shift(54) == 15 && Shift(55) == 21
    ensures Shift(56) == 6 && Shift(57) == 10 && Shift(58) == 15 && Shift(59) == 21
    ensures Shift(60) == 6 && Shift(61) == 10 && Shift(62) == 15 && Shift(63) == 21
  {
  }

  // The 64 lines of the unrolled function, sixteen to a method.

  method Round1(x: seq<Word>, a0: Word, b0: Word, c0: Word, d0: Word) returns (a: Word, b: Word, c: Word, d: Word)
    requires |x| == 16
    ensures State(a, b, c, d) == RoundWords1(State(a0, b0, c0, d0), x)
  {
    hide Add, Md5Step, F1, F2, F3, F4, T, Index, Shift;
    Table1();
    Places1();
    a, b, c, d := a0, b0, c0, d0;
    a := Step1(a, b, c, d, Add(x[0], 0xd76aa478), 7);
    d := Step1(d, a, b, c, Add(x[1], 0xe8c7b756), 12);
    c := Step1(c, d, a, b, Add(x[2], 0x242070db), 17);
    b := Step1(b, c, d, a, Add(x[3], 0xc1bdceee), 22);
    a := Step1(a, b, c, d, Add(x[4], 0xf57c0faf), 7);
    d := Step1(d, a, b, c, Add(x[5], 0x4787c62a), 12);
    c := Step1(c, d, a, b, Add(x[6], 0xa8304613), 17);
    b := Step1(b, c, d, a, Add(x[7], 0xfd469501), 22);
    a := Step1(a, b, c, d, Add(x[8], 0x698098d8), 7);
    d := Step1(d, a, b, c, Add(x[9], 0x8b44f7af), 12);
    c := Step1(c, d, a, b, Add(x[10], 0xffff5bb1), 17);
    b := Step1(b, c, d, a, Add(x[11], 0x895cd7be), 22);
    a := Step1(a, b, c, d, Add(x[12], 0x6b901122), 7);
    d := Step1(d, a, b, c, Add(x[13], 0xfd987193), 12);
    c := Step1(c, d, a, b, Add(x[14], 0xa679438e), 17);
    b := Step1(b, c, d, a, Add(x[15], 0x49b40821), 22);
  }

  method Round2(x: seq<Word>, a0: Word, b0: Word, c0: Word, d0: Word) returns (a: Word, b: Word, c: Word, d: Word)
    requires |x| == 16
    ensures State(a, b, c, d) == RoundWords2(State(a0, b0, c0, d0), x)
  {
    hide Add, Md5Step, F1, F2, F3, F4, T, Index, Shift;
    Table2();
    Places2();
    a, b, c, d := a0, b0, c0, d0;
    a := Step2(a, b, c, d, Add(x[1], 0xf61e2562), 5);
    d := Step2(d, a, b, c, Add(x[6], 0xc040b340), 9);
    c := Step2(c, d, a, b, Add(x[11], 0x265e5a51), 14);
    b := Step2(b, c, d, a, Add(x[0], 0xe9b6c7aa), 20);
    a := Step2(a, b, c, d, Add(x[5], 0xd62f105d), 5);
    d := Step2(d, a, b, c, Add(x[10], 0x02441453), 9);
    c := Step2(c, d, a, b, Add(x[15], 0xd8a1e681), 14);
    b := Step2(b, c, d, a, Add(x[4], 0xe7d3fbc8), 20);
    a := Step2(a, b, c, d, Add(x[9], 0x21e1cde6), 5);
    d := Step2(d, a, b, c, Add(x[14], 0xc33707d6), 9);
    c := Step2(c, d, a, b, Add(x[3], 0xf4d50d87), 14);
    b := Step2(b, c, d, a, Add(x[8], 0x455a14ed), 20);
    a := Step2(a, b, c, d, Add(x[13], 0xa9e3e905), 5);
    d := Step2(d, a, b, c, Add(x[2], 0xfcefa3f8), 9);
    c := Step2(c, d, a, b, Add(x[7], 0x676f02d9), 14);
    b := Step2(b, c, d, a, Add(x[12], 0x8d2a4c8a), 20);
  }

  method Round3(x: seq<Word>, a0: Word, b0: Word, c0: Word, d0: Word) returns (a: Word, b: Word, c: Word, d: Word)
    requires |x| == 16
    ensures State(a, b, c, d) == RoundWords3(State(a0, b0, c0, d0), x)
  {
    hide Add, Md5Step, F1, F2, F3, F4, T, Index, Shift;
    Table3();
    Places3();
    a, b, c, d := a0, b0, c0, d0;
    a := Step3(a, b, c, d, Add(x[5], 0xfffa3942), 4);
    d := Step3(d, a, b, c, Add(x[8], 0x8771f681), 11);
    c := Step3(c, d, a, b, Add(x[11], 0x6d9d6122), 16);
    b := Step3(b, c, d, a, Add(x[14], 0xfde5380c), 23);
    a := Step3(a, b, c, d, Add(x[1], 0xa4beea44), 4);
    d := Step3(d, a, b, c, Add(x[4], 0x4bdecfa9), 11);
    c := Step3(c, d, a, b, Add(x[7], 0xf6bb4b60), 16);
    b := Step3(b, c, d, a, Add(x[10], 0xbebfbc70), 23);
    a := Step3(a, b, c, d, Add(x[13], 0x289b7ec6), 4);
    d := Step3(d, a, b, c, Add(x[0], 0xeaa127fa), 11);
    c := Step3(c, d, a, b, Add(x[3], 0xd4ef3085), 16);
    b := Step3(b, c, d, a, Add(x[6], 0x04881d05), 23);
    a := Step3(a, b, c, d, Add(x[9], 0xd9d4d039), 4);
    d := Step3(d, a, b, c, Add(x[12], 0xe6db99e5), 11);
    c := Step3(c, d, a, b, Add(x[15], 0x1fa27cf8), 16);
    b := Step3(b, c, d, a, Add(x[2], 0xc4ac5665), 23);
  }

  method Round4(x: seq<Word>, a0: Word, b0: Word, c0: Word, d0: Word) returns (a: Word, b: Word, c: Word, d: Word)
    requires |x| == 16
    ensures State(a, b, c, d) == RoundWords4(State(a0, b0, c0, d0), x)
  {
    hide Add, Md5Step, F1, F2, F3, F4, T, Index, Shift;
    Table4();
    Places4();
    a, b, c, d := a0, b0, c0, d0;
    a := Step4(a, b, c, d, Add(x[0], 0xf4292244), 6);
    d := Step4(d, a, b, c, Add(x[7], 0x432aff97), 10);
    c := Step4(c, d, a, b, Add(x[14], 0xab9423a7), 15);
    b := Step4(b, c, d, a, Add(x[5], 0xfc93a039), 21);
    a := Step4(a, b, c, d, Add(x[12], 0x655b59c3), 6);
    d := Step4(d, a, b, c, Add(x[3], 0x8f0ccc92), 10);
    c := Step4(c, d, a, b, Add(x[10], 0xffeff47d), 15);
    b := Step4(b, c, d, a, Add(x[1], 0x85845dd1), 21);
    a := Step4(a, b, c, d, Add(x[8], 0x6fa87e4f), 6);
    d := Step4(d, a, b, c, Add(x[15], 0xfe2ce6e0), 10);
    c := Step4(c, d, a, b, Add(x[6], 0xa3014314), 15);
    b := Step4(b, c, d, a, Add(x[13], 0x4e0811a1), 21);
    a := Step4(a, b, c, d, Add(x[4], 0xf7537e82), 6);
    d := Step4(d, a, b, c, Add(x[11], 0xbd3af235), 10);
    c := Step4(c, d, a, b, Add(x[2], 0x2ad7d2bb), 15);
    b := Step4(b, c, d, a, Add(x[9], 0xeb86d391), 21);
  }

  method Transform(buf: array<Word>, x: seq<Word>)
    requires buf.Length == 4 && |x| == 16
    modifies buf
    ensures State(buf[0], buf[1], buf[2], buf[3]) ==
      Compress(State(old(buf[0]), old(buf[1]), old(buf[2]), old(buf[3])), x)
  {
    hide Add, RoundWords1, RoundWords2, RoundWords3, RoundWords4, Operations;
    var a, b, c, d := buf[0], buf[1], buf[2], buf[3];
    AllOperations(State(a, b, c, d), x);
    a, b, c, d := Round1(x, a, b, c, d);
    a, b, c, d := Round2(x, a, b, c, d);
    a, b, c, d := Round3(x, a, b, c, d);
    a, b, c, d := Round4(x, a, b, c, d);
    buf[0] := Add(buf[0], a);
    buf[1] := Add(buf[1], b);
    buf[2] := Add(buf[2], c);
    buf[3] := Add(buf[3], d);
  }
}
