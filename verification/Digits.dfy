/** Hexadecimal digits by their place among the sixteen. */
module Digits {
  const DIGITS := "0123456789abcdef"
  const CAPITALS := "0123456789ABCDEF"

  /** The first place of a character, or the length. */
  function PlaceIn(c: char, s: string): (k: nat)
    ensures k <= |s| && (k < |s| ==> s[k] == c) && forall i :: 0 <= i < k ==> s[i] != c
  {
    if s == "" || s[0] == c then 0 else 1 + PlaceIn(c, s[1..])
  }

  function Place(c: char): nat {
    PlaceIn(c, DIGITS)
  }

  lemma PlaceOf(c: char, v: nat)
    requires v < 16 && DIGITS[v] == c
    ensures Place(c) == v
  {
    hide PlaceIn;
    assert forall i :: 0 <= i < 16 ==> DIGITS[i] as int == if i < 10 then 48 + i else 87 + i;
    assert DIGITS[Place(c)] == c;
  }
}
