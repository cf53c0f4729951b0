/** The two streaming implementations of MD5, each proved to compute the digest of RFC 1321
    over all bytes it was given, however they were split. */
module Md5Contexts {
  import opened Md5Spec
  import opened Md5Transform
  import opened WordShifts

  /** memcpy into a buffer. */
  method CopyBytes(to: array<Octet>, at: nat, from: seq<Octet>)
    requires at + |from| <= to.Length
    modifies to
    ensures to[..] == old(to[..at]) + from + old(to[at + |from|..])
  {
    var k := 0;
    while k < |from|
      invariant k <= |from|
      invariant forall i :: 0 <= i < to.Length ==> to[i] == if at <= i < at + k then from[i - at] else old(to[i])
    {
      to[at + k] := from[k];
      k := k + 1;
    }
  }

  /** memset to zero. */
  method ClearBytes(to: array<Octet>, at: nat, count: nat)
    requires at + count <= to.Length
    modifies to
    ensures to[..] == old(to[..at]) + Zeros(count) + old(to[at + count..])
  {
    var k := 0;
    while k < count
      invariant k <= count
      invariant forall i :: 0 <= i < to.Length ==> to[i] == if at <= i < at + k then 0 else old(to[i])
    {
      to[at + k] := 0;
      k := k + 1;
    }
  }

  function Chained(buf: array<Word>): State
    requires buf.Length == 4
    reads buf
  {
    State(buf[0], buf[1], buf[2], buf[3])
  }

  lemma NextBlock(m: seq<Octet>, q: nat)
    requires 64 * (q + 1) <= |m|
    ensures Blocks(m, q + 1) == Compress(Blocks(m, q), Words(m[64 * q..64 * (q + 1)]))
  {
    hide Compress, Words;
  }

  lemma Inside(m: seq<Octet>, data: seq<Octet>, i: nat, j: nat)
    requires i <= j <= |data|
    ensures (m + data)[|m| + i..|m| + j] == data[i..j]
  {
  }

  lemma Across(m: seq<Octet>, data: seq<Octet>, i: nat, j: nat)
    requires i <= |m| && j <= |data|
    ensures (m + data)[i..|m| + j] == m[i..] + data[..j]
  {
  }

  /** What both contexts hold of the bytes seen: the chained state of the full blocks, and
      the rest at the start of the block buffer. */
  predicate Holds(buf: array<Word>, block: array<Octet>, m: seq<Octet>)
    reads buf, block
  {
    && buf.Length == 4 && block.Length == 64
    && Chained(buf) == Blocks(m, |m| / 64)
    && block[..|m| % 64] == m[64 * (|m| / 64)..]
  }

  /** One whole block of new data. */
  method AbsorbBlock(buf: array<Word>, block: array<Octet>, data: seq<Octet>, pos: nat, ghost m: seq<Octet>)
    requires buf.Length == 4 && block.Length == 64 && pos + 64 <= |data|
    requires (|m| + pos) % 64 == 0 && Chained(buf) == Blocks(m + data, (|m| + pos) / 64)
    modifies buf, block
    ensures (|m| + pos + 64) % 64 == 0 && Chained(buf) == Blocks(m + data, (|m| + pos + 64) / 64)
  {
    hide Compress, Words, Blocks;
    CopyBytes(block, 0, data[pos..pos + 64]);
    ghost var q := (|m| + pos) / 64;
    Inside(m, data, pos, pos + 64);
    assert 64 * q == |m| + pos;
    assert block[..] == data[pos..pos + 64];
    NextBlock(m + data, q);
    Transform(buf, Words(block[..]));
  }

  /** What does not fill a block stays in the buffer. */
  method AbsorbRest(buf: array<Word>, block: array<Octet>, data: seq<Octet>, pos: nat, ghost m: seq<Octet>)
    requires buf.Length == 4 && block.Length == 64 && pos <= |data| < pos + 64
    requires (|m| + pos) % 64 == 0 && Chained(buf) == Blocks(m + data, (|m| + pos) / 64)
    modifies block
    ensures Holds(buf, block, m + data)
  {
    hide Compress, Words, Blocks;
    ghost var all := m + data;
    CopyBytes(block, 0, data[pos..]);
    Inside(m, data, pos, |data|);
    assert all[|m| + pos..] == all[|m| + pos..|m| + |data|];
    assert block[..|data| - pos] == data[pos..];
    assert |all| / 64 == (|m| + pos) / 64 && |all| % 64 == |data| - pos;
  }

  /** The copying and transforming part of both Update functions from the point where the
      buffered bytes end a block: whole blocks, then the rest. */
  method Absorb(buf: array<Word>, block: array<Octet>, data: seq<Octet>, start: nat, ghost m: seq<Octet>)
    requires buf.Length == 4 && block.Length == 64 && start <= |data|
    requires (|m| + start) % 64 == 0 && Chained(buf) == Blocks(m + data, (|m| + start) / 64)
    modifies buf, block
    ensures Holds(buf, block, m + data)
  {
    hide Compress, Words, Blocks, Chained;
    var pos := start;
    while |data| - pos >= 64
      invariant start <= pos <= |data| && (|m| + pos) % 64 == 0
      invariant Chained(buf) == Blocks(m + data, (|m| + pos) / 64)
    {
      AbsorbBlock(buf, block, data, pos, m);
      pos := pos + 64;
    }
    AbsorbRest(buf, block, data, pos, m);
  }

  /** Fills the buffered block up with the first bytes of new data and transforms it. */
  method FillBlock(buf: array<Word>, block: array<Octet>, data: seq<Octet>, t: nat, ghost m: seq<Octet>)
    requires Holds(buf, block, m) && t == 64 - |m| % 64 <= |data|
    modifies buf, block
    ensures buf.Length == 4 && block.Length == 64 && (|m| + t) % 64 == 0
    ensures Chained(buf) == Blocks(m + data, (|m| + t) / 64)
  {
    hide Compress, Words, Blocks;
    CopyBytes(block, 64 - t, data[..t]);
    ghost var q := |m| / 64;
    Across(m, data, 64 * q, t);
    assert 64 * (q + 1) == |m| + t;
    assert block[..] == m[64 * q..] + data[..t];
    BlocksOfPrefix(m, data, q);
    NextBlock(m + data, q);
    Transform(buf, Words(block[..]));
  }

  /** Bytes that do not fill the block are only buffered. */
  method Buffer(buf: array<Word>, block: array<Octet>, data: seq<Octet>, used: nat, ghost m: seq<Octet>)
    requires Holds(buf, block, m) && used == |m| % 64 && used + |data| < 64
    modifies block
    ensures Holds(buf, block, m + data)
  {
    hide Compress, Words, Blocks;
    CopyBytes(block, used, data);
    BlocksOfPrefix(m, data, |m| / 64);
    Across(m, data, 64 * (|m| / 64), |data|);
    assert |m + data| / 64 == |m| / 64 && |m + data| % 64 == used + |data|;
    assert data[..|data|] == data;
    assert (m + data)[64 * (|m| / 64)..] == m[64 * (|m| / 64)..] + data;
  }

  // ---- padding ----------------------------------------------------------------------

  /** The last block when the padding fits: 56 bytes and the length. */
  lemma PaddingFits(m: seq<Octet>)
    requires |m| % 64 < 56
    ensures var q := |m| / 64;
            && |Padded(m)| == 64 * q + 56
            && Padded(m)[64 * q..] == m[64 * q..] + [0x80] + Zeros(55 - |m| % 64)
            && Blocks(Padded(m), q) == Blocks(m, q)
  {
    hide Compress, Words;
    assert Padded(m) == m + ([0x80] + Zeros(PadZeros(|m|)));
    BlocksOfPrefix(m, [0x80] + Zeros(PadZeros(|m|)), |m| / 64);
  }

  /** Otherwise one more block holds the rest, 0x80 and zeros, and 56 zeros precede the
      length. */
  lemma PaddingSpills(m: seq<Octet>)
    requires |m| % 64 >= 56
    ensures var q := |m| / 64;
            && |Padded(m)| == 64 * (q + 1) + 56
            && Padded(m)[64 * q..64 * (q + 1)] == m[64 * q..] + [0x80] + Zeros(63 - |m| % 64)
            && Padded(m)[64 * (q + 1)..] == Zeros(56)
            && Blocks(Padded(m), q) == Blocks(m, q)
            && Blocks(Padded(m), q + 1) == Compress(Blocks(m, q), Words(m[64 * q..] + [0x80] + Zeros(63 - |m| % 64)))
  {
    hide Compress, Words;
    var q, r := |m| / 64, |m| % 64;
    assert PadZeros(|m|) == 119 - r;
    var head, block := m[..64 * q], m[64 * q..] + [0x80] + Zeros(63 - r);
    assert Zeros(119 - r) == Zeros(63 - r) + Zeros(56);
    assert Padded(m) == head + block + Zeros(56);
    assert Padded(m)[64 * q..64 * (q + 1)] == block;
    BlocksOfPrefix(m, [0x80] + Zeros(PadZeros(|m|)), q);
    assert Padded(m) == m + ([0x80] + Zeros(PadZeros(|m|)));
    NextBlock(Padded(m), q);
  }

  // ---- src/lib/md5.cpp --------------------------------------------------------------

  /** MD5::Context.  `bytes[0]` and `bytes[1]` count the bytes modulo 2^64 in two words. */
  class LibraryContext {
    const buf: array<Word>
    const block: array<Octet>
    var bytesLow: nat
    var bytesHigh: nat
    ghost var message: seq<Octet>

    ghost predicate Valid()
      reads this, buf, block
    {
      && Holds(buf, block, message)
      && bytesLow == |message| % WORD_RANGE
      && bytesHigh == |message| / WORD_RANGE % WORD_RANGE
    }

    constructor ()
      ensures Valid() && message == [] && fresh(buf) && fresh(block)
    {
      buf := new Word[4];
      block := new Octet[64];
      bytesLow, bytesHigh := 0, 0;
      message := [];
      new;
      buf[0], buf[1], buf[2], buf[3] := 0x67452301, 0xefcdab89, 0x98badcfe, 0x10325476;
    }

    /** The byte count, with a carry into the high word; returns the bytes buffered before. */
    method CountBytes(len: nat) returns (used: nat)
      requires len < WORD_RANGE
      requires bytesLow == |message| % WORD_RANGE && bytesHigh == |message| / WORD_RANGE % WORD_RANGE
      modifies this`bytesLow, this`bytesHigh
      ensures bytesLow == (|message| + len) % WORD_RANGE && bytesHigh == (|message| + len) / WORD_RANGE % WORD_RANGE
      ensures used == |message| % 64
    {
      var t := bytesLow;
      bytesLow := (t + len) % WORD_RANGE;
      if bytesLow < t { bytesHigh := (bytesHigh + 1) % WORD_RANGE; }
      CountCarries(|message|, len);
      LowBits(|message|);
      used := t % 64;
    }

    method Update(data: seq<Octet>)
      requires Valid() && |data| < WORD_RANGE
      modifies this, buf, block
      ensures Valid() && message == old(message) + data
    {
      hide Compress, Words, Blocks, Initial, Chained, Holds;
      var used := CountBytes(|data|);
      var t := 64 - used;
      if t > |data| {
        Buffer(buf, block, data, used, message);
      } else {
        FillBlock(buf, block, data, t, message);
        Absorb(buf, block, data, t, message);
      }
      message := message + data;
    }

    /** The padding: returns the chained state's last block but for the length. */
    method Pad(count: nat)
      requires Holds(buf, block, message) && count == |message| % 64
      modifies buf, block
      ensures var p := Padded(message); var q := |p| / 64;
              Chained(buf) == Blocks(p, q) && block[..56] == p[64 * q..]
    {
      hide Compress, Words, Blocks, Padded;
      ghost var m := message;
      ghost var q := |m| / 64;
      block[count] := 0x80;
      var left: int := 55 - count;
      if left < 0 {
        PaddingSpills(m);
        ClearBytes(block, count + 1, left + 8);
        assert block[..] == m[64 * q..] + [0x80] + Zeros(63 - |m| % 64);
        Transform(buf, Words(block[..]));
        ClearBytes(block, 0, 56);
        assert block[..56] == Zeros(56);
      } else {
        PaddingFits(m);
        ClearBytes(block, count + 1, left);
        assert block[..56] == m[64 * q..] + [0x80] + Zeros(55 - |m| % 64);
      }
    }

    /** in[14] and in[15]. */
    method LengthWords() returns (low: Word, high: Word)
      requires bytesLow == |message| % WORD_RANGE && bytesHigh == |message| / WORD_RANGE % WORD_RANGE
      ensures low == LengthLow(|message|) && high == LengthHigh(|message|)
    {
      hide Value, LengthLow, LengthHigh;
      var lo, hi := bytesLow as Word, bytesHigh as Word;
      ValueOfWord(bytesLow);
      ValueOfWord(bytesHigh);
      low := lo << 3;
      high := (hi << 3) | (lo >> 29);
      ShiftedCounter(|message|, lo, hi);
      LengthOfValues(|message|, low, high);
    }

    method Final() returns (digest: seq<Octet>)
      requires Valid()
      modifies this, buf, block
      ensures digest == Md5(old(message))
    {
      hide Compress, Words, Blocks, LengthLow, LengthHigh, StateBytes;
      LowBits(|message|);
      Pad(bytesLow % 64);
      var low, high := LengthWords();
      Transform(buf, Words(block[..56]) + [low, high]);
      digest := StateBytes(Chained(buf));
    }
  }

  /** Octet counter with carry: the low word wraps exactly when it ends up smaller. */
  lemma CountCarries(n: nat, len: nat)
    requires len < WORD_RANGE
    ensures var low := (n % WORD_RANGE + len) % WORD_RANGE;
            && (n + len) % WORD_RANGE == low
            && (n + len) / WORD_RANGE % WORD_RANGE ==
               if low < n % WORD_RANGE then (n / WORD_RANGE % WORD_RANGE + 1) % WORD_RANGE
               else n / WORD_RANGE % WORD_RANGE
  {
    var a, b := n / WORD_RANGE, n % WORD_RANGE;
    assert n == a * WORD_RANGE + b;
    if b + len < WORD_RANGE {
      assert (n + len) / WORD_RANGE == a;
    } else {
      assert (n + len) / WORD_RANGE == a + 1;
    }
  }

  lemma LowBits(n: nat)
    ensures n % WORD_RANGE % 64 == n % 64
  {
    var k := n / WORD_RANGE;
    assert n == 64 * (k * 0x400_0000) + n % WORD_RANGE;
  }

  /** The two length words of a byte counter, multiplied out. */
  lemma BitsFromBytes(n: nat)
    ensures var low, high := n % WORD_RANGE, n / WORD_RANGE % WORD_RANGE;
            && low * 8 % WORD_RANGE == 8 * n % WORD_RANGE
            && high * 8 % WORD_RANGE + low / 0x2000_0000 < WORD_RANGE
            && high * 8 % WORD_RANGE + low / 0x2000_0000 == 8 * n / WORD_RANGE % WORD_RANGE
  {
    var a, low := n / WORD_RANGE, n % WORD_RANGE;
    var k, high := a / WORD_RANGE, a % WORD_RANGE;
    var top, rest := low / 0x2000_0000, low % 0x2000_0000;
    Quotient(low * 8, top, 8 * rest);
    Quotient(8 * n, 8 * a + top, 8 * rest);
    var lead, more := high / 0x2000_0000, high % 0x2000_0000;
    Quotient(high * 8, lead, 8 * more);
    Quotient(8 * a + top, 8 * k + lead, 8 * more + top);
  }

  lemma Quotient(x: nat, q: nat, r: nat)
    requires x == q * WORD_RANGE + r && r < WORD_RANGE
    ensures x / WORD_RANGE == q && x % WORD_RANGE == r
  {
  }

  /** The shifts of the two counter words are the two words of the length in bits. */
  lemma ShiftedCounter(n: nat, lo: Word, hi: Word)
    requires Value(lo) == n % WORD_RANGE && Value(hi) == n / WORD_RANGE % WORD_RANGE
    ensures Value(lo << 3) == 8 * n % WORD_RANGE
    ensures Value((hi << 3) | (lo >> 29)) == 8 * n / WORD_RANGE % WORD_RANGE
  {
    hide Value;
    ShiftLeftThree(lo);
    ShiftLeftThree(hi);
    ShiftRight29(lo);
    OrOfShifts(hi, lo);
    BitsFromBytes(n);
    assert 8 * (n % WORD_RANGE) == n % WORD_RANGE * 8;
    assert 8 * (n / WORD_RANGE % WORD_RANGE) == n / WORD_RANGE % WORD_RANGE * 8;
  }

  lemma LengthOfValues(n: nat, low: Word, high: Word)
    requires Value(low) == 8 * n % WORD_RANGE && Value(high) == 8 * n / WORD_RANGE % WORD_RANGE
    ensures low == LengthLow(n) && high == LengthHigh(n)
  {
    hide Value;
    SameWord(8 * n % WORD_RANGE, low);
    SameWord(8 * n / WORD_RANGE % WORD_RANGE, high);
  }

  // ---- src/httpserver/httpserver_mongoose.c -----------------------------------------

  /** MD5_CTX.  `bits[0]` and `bits[1]` count the bits modulo 2^64 in two words. */
  class MongooseContext {
    const buf: array<Word>
    const block: array<Octet>
    var bitsLow: nat
    var bitsHigh: nat
    ghost var message: seq<Octet>

    ghost predicate Valid()
      reads this, buf, block
    {
      && Holds(buf, block, message)
      && bitsLow == 8 * |message| % WORD_RANGE
      && bitsHigh == 8 * |message| / WORD_RANGE % WORD_RANGE
    }

    constructor ()
      ensures Valid() && message == [] && fresh(buf) && fresh(block)
    {
      buf := new Word[4];
      block := new Octet[64];
      bitsLow, bitsHigh := 0, 0;
      message := [];
      new;
      buf[0], buf[1], buf[2], buf[3] := 0x67452301, 0xefcdab89, 0x98badcfe, 0x10325476;
    }

    /** The bit count: the length shifted left by 3 is added with a carry, the bits shifted
        out are added to the high word.  Returns the bytes buffered before. */
    method CountBits(len: nat) returns (used: nat)
      requires len < WORD_RANGE
      requires bitsLow == 8 * |message| % WORD_RANGE && bitsHigh == 8 * |message| / WORD_RANGE % WORD_RANGE
      modifies this`bitsLow, this`bitsHigh
      ensures bitsLow == 8 * (|message| + len) % WORD_RANGE
      ensures bitsHigh == 8 * (|message| + len) / WORD_RANGE % WORD_RANGE
      ensures used == |message| % 64
    {
      var t := bitsLow;
      bitsLow := (t + len * 8 % WORD_RANGE) % WORD_RANGE;
      if bitsLow < t { bitsHigh := (bitsHigh + 1) % WORD_RANGE; }
      bitsHigh := (bitsHigh + len / 0x2000_0000) % WORD_RANGE;
      BitCountCarries(|message|, len);
      used := t / 8 % 64;
      BufferedFromBits(|message|);
    }

    /** The leading odd-sized chunk.  `start` is where whole blocks begin in the data, if it
        reaches that far. */
    method Lead(data: seq<Octet>, used: nat) returns (start: nat, buffered: bool)
      requires Holds(buf, block, message) && used == |message| % 64
      modifies buf, block
      ensures buffered ==> Holds(buf, block, message + data)
      ensures !buffered ==> start <= |data| && (|message| + start) % 64 == 0
                            && Chained(buf) == Blocks(message + data, (|message| + start) / 64)
    {
      hide Compress, Words, Blocks, Initial;
      start, buffered := 0, false;
      if used != 0 {
        var t := 64 - used;
        if |data| < t {
          Buffer(buf, block, data, used, message);
          buffered := true;
        } else {
          FillBlock(buf, block, data, t, message);
          start := t;
        }
      } else {
        BlocksOfPrefix(message, data, |message| / 64);
      }
    }

    method Update(data: seq<Octet>)
      requires Valid() && |data| < WORD_RANGE
      modifies this, buf, block
      ensures Valid() && message == old(message) + data
    {
      hide Compress, Words, Blocks, Initial;
      var used := CountBits(|data|);
      var start, buffered := Lead(data, used);
      if !buffered { Absorb(buf, block, data, start, message); }
      message := message + data;
    }

    method Pad(used: nat)
      requires Holds(buf, block, message) && used == |message| % 64
      modifies buf, block
      ensures var p := Padded(message); var q := |p| / 64;
              Chained(buf) == Blocks(p, q) && block[..56] == p[64 * q..]
    {
      hide Compress, Words, Blocks, Padded;
      ghost var m := message;
      ghost var q := |m| / 64;
      block[used] := 0x80;
      var left := 63 - used;
      if left < 8 {
        PaddingSpills(m);
        ClearBytes(block, used + 1, left);
        assert block[..] == m[64 * q..] + [0x80] + Zeros(63 - |m| % 64);
        Transform(buf, Words(block[..]));
        ClearBytes(block, 0, 56);
        assert block[..56] == Zeros(56);
      } else {
        PaddingFits(m);
        ClearBytes(block, used + 1, left - 8);
        assert block[..56] == m[64 * q..] + [0x80] + Zeros(55 - |m| % 64);
      }
    }

    method Final() returns (digest: seq<Octet>)
      requires Valid()
      modifies this, buf, block
      ensures digest == Md5(old(message))
    {
      hide Compress, Words, Blocks, StateBytes;
      BufferedFromBits(|message|);
      Pad(bitsLow / 8 % 64);
      Transform(buf, Words(block[..56]) + [bitsLow as Word, bitsHigh as Word]);
      digest := StateBytes(Chained(buf));
    }
  }

  /** The number of buffered bytes is read off the bit count. */
  lemma BufferedFromBits(n: nat)
    ensures 8 * n % WORD_RANGE / 8 % 64 == n % 64
  {
    var k := n / 0x2000_0000;
    var r := n % 0x2000_0000;
    assert n == k * 0x2000_0000 + r;
    assert 8 * n == k * WORD_RANGE + 8 * r;
    assert 8 * n % WORD_RANGE == 8 * r;
    assert 8 * r / 8 == r;
    assert n == 64 * (k * 0x80_0000) + r;
    assert n % 64 == r % 64;
  }

  /** Bit counter with carry. */
  lemma BitCountCarries(n: nat, len: nat)
    requires len < WORD_RANGE
    ensures var t, high := 8 * n % WORD_RANGE, 8 * n / WORD_RANGE % WORD_RANGE;
            var low := (t + len * 8 % WORD_RANGE) % WORD_RANGE;
            && low == 8 * (n + len) % WORD_RANGE
            && ((if low < t then (high + 1) % WORD_RANGE else high) + len / 0x2000_0000) % WORD_RANGE ==
               8 * (n + len) / WORD_RANGE % WORD_RANGE
  {
    var a, t := 8 * n / WORD_RANGE, 8 * n % WORD_RANGE;
    var c, l := len * 8 / WORD_RANGE, len * 8 % WORD_RANGE;
    assert 8 * (n + len) == (a + c) * WORD_RANGE + (t + l);
    assert c == len / 0x2000_0000;
    if t + l < WORD_RANGE {
      assert 8 * (n + len) / WORD_RANGE == a + c;
      SumOfRemainders(a, c);
    } else {
      assert 8 * (n + len) / WORD_RANGE == a + 1 + c;
      SumOfRemainders(a, 1);
      SumOfRemainders(a + 1, c);
    }
  }

  lemma SumOfRemainders(a: nat, b: nat)
    ensures (a % WORD_RANGE + b) % WORD_RANGE == (a + b) % WORD_RANGE
  {
    assert a == a / WORD_RANGE * WORD_RANGE + a % WORD_RANGE;
    var k := a / WORD_RANGE;
    var r := a % WORD_RANGE + b;
    assert a + b == k * WORD_RANGE + r;
  }

  // ---- both together ----------------------------------------------------------------

  function Concatenated(chunks: seq<seq<Octet>>): seq<Octet> {
    if chunks == [] then [] else Concatenated(chunks[..|chunks| - 1]) + chunks[|chunks| - 1]
  }

  /** What the two counters hold over the same bytes: the bit counter is 8 times the byte
      counter modulo 2^64. */
  lemma CountersAgree(n: nat)
    ensures var bytes := n / WORD_RANGE % WORD_RANGE * WORD_RANGE + n % WORD_RANGE;
            var bits := 8 * n / WORD_RANGE % WORD_RANGE * WORD_RANGE + 8 * n % WORD_RANGE;
            bits == 8 * bytes % (WORD_RANGE * WORD_RANGE)
  {
    TwoWords(n);
    TwoWords(8 * n);
    var r := WORD_RANGE * WORD_RANGE;
    var k := n / r;
    assert n == k * r + n % r;
    assert 8 * n == (8 * k) * r + 8 * (n % r);
    SameRemainder(8 * k, 8 * (n % r));
  }

  /** Contexts that have seen the same bytes hold the same chained state and buffered bytes,
      and one counts 8 times what the other counts, modulo 2^64. */
  lemma ContextsAgree(a: LibraryContext, b: MongooseContext)
    requires a.Valid() && b.Valid() && a.message == b.message
    ensures Chained(a.buf) == Chained(b.buf)
    ensures a.block[..|a.message| % 64] == b.block[..|a.message| % 64]
    ensures b.bitsHigh * WORD_RANGE + b.bitsLow ==
            8 * (a.bytesHigh * WORD_RANGE + a.bytesLow) % (WORD_RANGE * WORD_RANGE)
  {
    hide Blocks, Chained;
    CountersAgree(|a.message|);
  }

  /** The same calls on both give the same digest, that of the bytes in all chunks; between
      the calls lemma ContextsAgree holds of them. */
  method Simulate(chunks: seq<seq<Octet>>) returns (ours: seq<Octet>, theirs: seq<Octet>)
    requires forall k :: 0 <= k < |chunks| ==> |chunks[k]| < WORD_RANGE
    ensures ours == theirs == Md5(Concatenated(chunks))
  {
    hide Md5, Blocks, Chained, Compress, Words, Padded, Md5State, Holds;
    var a := new LibraryContext();
    var b := new MongooseContext();
    assert Concatenated(chunks[..0]) == [];
    for k := 0 to |chunks|
      invariant a.Valid() && b.Valid() && a.message == b.message == Concatenated(chunks[..k])
      invariant fresh(a) && fresh(a.buf) && fresh(a.block) && fresh(b) && fresh(b.buf) && fresh(b.block)
      invariant a.buf != b.buf && a.block != b.block
    {
      assert chunks[..k + 1][..k] == chunks[..k];
      a.Update(chunks[k]);
      b.Update(chunks[k]);
    }
    assert chunks[..|chunks|] == chunks;
    ours := a.Final();
    theirs := b.Final();
  }

  lemma SameRemainder(k: nat, x: nat)
    ensures (k * (WORD_RANGE * WORD_RANGE) + x) % (WORD_RANGE * WORD_RANGE) == x % (WORD_RANGE * WORD_RANGE)
  {
    var r := WORD_RANGE * WORD_RANGE;
    assert x == x / r * r + x % r;
    assert k * r + x == (k + x / r) * r + x % r;
  }

  lemma TwoWords(n: nat)
    ensures n / WORD_RANGE % WORD_RANGE * WORD_RANGE + n % WORD_RANGE == n % (WORD_RANGE * WORD_RANGE)
  {
    var a := n / WORD_RANGE;
    var k := a / WORD_RANGE;
    assert n == a * WORD_RANGE + n % WORD_RANGE;
    assert a == k * WORD_RANGE + a % WORD_RANGE;
    var x := a % WORD_RANGE * WORD_RANGE + n % WORD_RANGE;
    assert n == k * (WORD_RANGE * WORD_RANGE) + x;
    SameRemainder(k, x);
  }
}
