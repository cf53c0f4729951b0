/** What shifting a 32-bit word does to the number it stands for. */
module WordShifts {
  import opened Md5Spec

  function Value(x: Word): (n: nat)
    ensures n < WORD_RANGE
  {
    x as int
  }

  lemma DoubleWord(h: Word)
    requires h as int < 0x8000_0000
    ensures (h << 1) as int == 2 * (h as int) && ((h << 1) | 1) as int == 2 * (h as int) + 1
  {
    assert h < 0x8000_0000 by { TopBitClear(h); }
    ShiftBySmall(h);
  }

  lemma TopBitClear(h: Word)
    requires h as int < 0x8000_0000
    ensures h < 0x8000_0000
  {
  }

  lemma ShiftBySmall(h: Word)
    requires h < 0x8000_0000
    ensures (h << 1) as int == 2 * (h as int) && ((h << 1) | 1) as int == 2 * (h as int) + 1
  {
  }

  /** Every number in range is the value of a word, built bit by bit. */
  lemma {:induction false} SomeWord(n: nat) returns (w: Word)
    requires n < WORD_RANGE
    ensures w as int == n
  {
    if n == 0 {
      w := 0;
    } else {
      var h := SomeWord(n / 2);
      DoubleWord(h);
      w := if n % 2 == 0 then h << 1 else (h << 1) | 1;
    }
  }

  lemma WordOfValue(n: nat, x: Word)
    requires n < WORD_RANGE && n == x as int
    ensures n as Word == x
  {
  }

  lemma ValueOfWord(n: nat)
    requires n < WORD_RANGE
    ensures Value(n as Word) == n
  {
    var w := SomeWord(n);
    WordOfValue(n, w);
  }

  lemma SameWord(n: nat, x: Word)
    requires n < WORD_RANGE && Value(x) == n
    ensures n as Word == x
  {
    WordOfValue(n, x);
  }

  lemma ShiftLeftOnce(x: Word)
    ensures Value(x << 1) == if Value(x) < 0x8000_0000 then 2 * Value(x) else 2 * Value(x) - WORD_RANGE
  {
  }

  lemma ThreeTimes(x: Word)
    ensures x << 3 == ((x << 1) << 1) << 1
  {
  }

  lemma EightFold(a: nat, b: nat, c: nat, d: nat)
    requires a < WORD_RANGE
    requires b == if a < 0x8000_0000 then 2 * a else 2 * a - WORD_RANGE
    requires c == if b < 0x8000_0000 then 2 * b else 2 * b - WORD_RANGE
    requires d == if c < 0x8000_0000 then 2 * c else 2 * c - WORD_RANGE
    ensures d == 8 * a % WORD_RANGE
  {
  }

  /** x << 3 loses what goes beyond the word. */
  lemma ShiftLeftThree(x: Word)
    ensures Value(x << 3) == 8 * Value(x) % WORD_RANGE
  {
    hide Value;
    var y := x << 1;
    var z := y << 1;
    ThreeTimes(x);
    ShiftLeftOnce(x);
    ShiftLeftOnce(y);
    ShiftLeftOnce(z);
    EightFold(Value(x), Value(y), Value(z), Value(x << 3));
  }

  /** x >> 29 leaves the top three bits. */
  lemma ShiftRight29(x: Word)
    ensures Value(x >> 29) == Value(x) / 0x2000_0000
  {
  }

  /** The shifted words have no common bit, so combining them adds them. */
  lemma OrOfShifts(high: Word, low: Word)
    ensures Value((high << 3) | (low >> 29)) == Value(high << 3) + Value(low >> 29)
  {
  }
}
