/** The order of bytes and words in MD5, said with arithmetic: low-order first throughout. */
module Md5Bytes {
  import opened Md5Spec
  import opened WordShifts

  /** Four bytes are the word: the first counts once, the second 256 times, and so on. */
  predicate IsWord(b0: Octet, b1: Octet, b2: Octet, b3: Octet, w: Word) {
    w == b0 as Word + 256 * (b1 as Word) + 65536 * (b2 as Word) + 16777216 * (b3 as Word)
  }

  lemma OfShifts(b0: Octet, b1: Octet, b2: Octet, b3: Octet)
    ensures IsWord(b0, b1, b2, b3, b0 as Word | (b1 as Word << 8) | (b2 as Word << 16) | (b3 as Word << 24))
  {
  }

  lemma ToBytes(w: Word)
    ensures var b := WordBytes(w); IsWord(b[0], b[1], b[2], b[3], w)
  {
  }

  /** A block is read in words. */
  lemma WordsMean(block: seq<Octet>, i: nat)
    requires 4 * i + 4 <= |block|
    ensures i < |Words(block)|
    ensures IsWord(block[4 * i], block[4 * i + 1], block[4 * i + 2], block[4 * i + 3], Words(block)[i])
  {
    hide IsWord;
    OfShifts(block[4 * i], block[4 * i + 1], block[4 * i + 2], block[4 * i + 3]);
  }

  lemma Parts<T>(a: seq<T>, b: seq<T>, c: seq<T>, d: seq<T>, j: nat, k: nat)
    requires |a| == |b| == |c| == |d| == 4 && j < 4 && k < 4
    ensures (a + b + c + d)[4 * j + k] == (if j == 0 then a else if j == 1 then b else if j == 2 then c else d)[k]
  {
  }

  /** Word `j` of a state. */
  function WordOf(s: State, j: nat): Word {
    if j == 0 then s.a else if j == 1 then s.b else if j == 2 then s.c else s.d
  }

  lemma StateBytesAt(s: State, j: nat, k: nat)
    requires j < 4 && k < 4
    ensures StateBytes(s)[4 * j + k] == WordBytes(WordOf(s, j))[k]
  {
    hide WordBytes;
    Parts(WordBytes(s.a), WordBytes(s.b), WordBytes(s.c), WordBytes(s.d), j, k);
  }

  /** The digest is the bytes of the four words of the last state. */
  lemma DigestMeans(m: seq<Octet>, j: nat)
    requires j < 4
    ensures var d := Md5(m);
            IsWord(d[4 * j], d[4 * j + 1], d[4 * j + 2], d[4 * j + 3], WordOf(Md5State(m), j))
  {
    hide IsWord, Md5State, WordBytes, WordOf, StateBytes;
    ToBytes(WordOf(Md5State(m), j));
    StateBytesAt(Md5State(m), j, 0);
    StateBytesAt(Md5State(m), j, 1);
    StateBytesAt(Md5State(m), j, 2);
    StateBytesAt(Md5State(m), j, 3);
  }

  /** The bytes before the length: the message, 0x80, and as few zeros as make the length 56
      modulo 64. */
  predicate Fills(m: seq<Octet>, p: seq<Octet>) {
    && |m| < |p| <= |m| + 64 && |p| % 64 == 56 && p[..|m|] == m && p[|m|] == 0x80
    && forall k :: |m| < k < |p| ==> p[k] == 0
  }

  lemma PaddedFills(m: seq<Octet>)
    ensures Fills(m, Padded(m))
  {
    var p := Padded(m);
    assert p[..|m|] == m;
    forall k | |m| < k < |p| ensures p[k] == 0 { assert p[k] == Zeros(PadZeros(|m|))[k - |m| - 1]; }
  }

  /** The words of the length count its low and its high part. */
  lemma LengthMeans(n: nat)
    ensures Value(LengthLow(n)) + 0x1_0000_0000 * Value(LengthHigh(n)) == 8 * n % 0x1_0000_0000_0000_0000
  {
    hide Value;
    ValueOfWord(8 * n % WORD_RANGE);
    ValueOfWord(8 * n / WORD_RANGE % WORD_RANGE);
    TwoWords(8 * n);
  }

  lemma TwoWords(n: nat)
    ensures n % 0x1_0000_0000 + 0x1_0000_0000 * (n / 0x1_0000_0000 % 0x1_0000_0000) == n % 0x1_0000_0000_0000_0000
  {
    var r, q := n % 0x1_0000_0000, n / 0x1_0000_0000;
    var l, h := q % 0x1_0000_0000, q / 0x1_0000_0000;
    Remainder(n, h, r + 0x1_0000_0000 * l);
  }

  lemma Remainder(n: nat, h: nat, m: nat)
    requires n == 0x1_0000_0000_0000_0000 * h + m && m < 0x1_0000_0000_0000_0000
    ensures n % 0x1_0000_0000_0000_0000 == m
  {
  }

  /** The last block ends with the length in bits modulo 2^64, the low-order word first. */
  lemma LastBlockMeans(m: seq<Octet>)
    ensures exists p: seq<Octet>, x: seq<Word> ::
              && Fills(m, p) && |x| == 16 && x[..14] == Words(p[|p| - 56..])
              && Value(x[14]) + 0x1_0000_0000 * Value(x[15]) == 8 * |m| % 0x1_0000_0000_0000_0000
              && Md5State(m) == Compress(Blocks(p, |p| / 64), x)
  {
    hide Compress, Blocks, Value, Words, LengthLow, LengthHigh, Padded;
    var p := Padded(m);
    PaddedFills(m);
    LengthMeans(|m|);
    var q := |p| / 64;
    assert 64 * q == |p| - 56;
    var last := Words(p[|p| - 56..]);
    var x := last + [LengthLow(|m|), LengthHigh(|m|)];
    assert |last| == 14 && x[..14] == last;
    assert x[14] == LengthLow(|m|) && x[15] == LengthHigh(|m|);
  }
}
