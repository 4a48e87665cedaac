/**
 * String operations the controllers rely on: the ordinal case-insensitive
 * `Contains` and `Equals` of the catalog filters (over ASCII letters), and the
 * decimal text of a user id that the session stores (`int.ToString`,
 * `int.Parse`).
 */
module Text {

  function LowerChar(c: char): char
  {
    if 'A' <= c <= 'Z' then (c as int - 'A' as int + 'a' as int) as char else c
  }

  function Lower(s: string): (r: string)
    ensures |r| == |s|
    ensures forall i :: 0 <= i < |s| ==> r[i] == LowerChar(s[i])
  {
    if s == [] then [] else [LowerChar(s[0])] + Lower(s[1..])
  }

  predicate IsPrefix(p: string, s: string)
  {
    |p| <= |s| && s[..|p|] == p
  }

  /** `needle` occurs somewhere in `hay` (the empty string occurs everywhere). */
  predicate Occurs(needle: string, hay: string)
    decreases |hay|
  {
    IsPrefix(needle, hay) || (hay != [] && Occurs(needle, hay[1..]))
  }

  /** `hay.Contains(needle, StringComparison.OrdinalIgnoreCase)`. */
  predicate ContainsIgnoreCase(hay: string, needle: string)
  {
    Occurs(Lower(needle), Lower(hay))
  }

  /** `a.Equals(b, StringComparison.OrdinalIgnoreCase)`. */
  predicate EqualsIgnoreCase(a: string, b: string)
  {
    Lower(a) == Lower(b)
  }

  /** A case-sensitive occurrence is always found by the case-insensitive search. */
  lemma {:induction false} OccurrenceIsFoundIgnoringCase(hay: string, needle: string)
    requires Occurs(needle, hay)
    ensures ContainsIgnoreCase(hay, needle)
  {
    if IsPrefix(needle, hay) {
      assert Lower(hay)[..|needle|] == Lower(needle);
    } else {
      OccurrenceIsFoundIgnoringCase(hay[1..], needle);
      assert Lower(hay)[1..] == Lower(hay[1..]);
    }
  }

  predicate IsDigit(c: char)
  {
    '0' <= c <= '9'
  }

  predicate AllDigits(s: string)
  {
    forall i :: 0 <= i < |s| ==> IsDigit(s[i])
  }

  function DigitChar(d: nat): (c: char)
    requires d < 10
    ensures IsDigit(c) && DigitValue(c) == d
  {
    ('0' as int + d) as char
  }

  function DigitValue(c: char): nat
    requires IsDigit(c)
  {
    c as int - '0' as int
  }

  /** `n.ToString()` for a non-negative `int`: decimal digits, no sign, no leading zeros. */
  function NatToString(n: nat): (s: string)
    ensures |s| > 0 && AllDigits(s)
    decreases n
  {
    if n < 10 then [DigitChar(n)] else NatToString(n / 10) + [DigitChar(n % 10)]
  }

  /** `int.Parse(s)` on a string of decimal digits. */
  function ParseNat(s: string): nat
    requires AllDigits(s)
  {
    if s == [] then 0 else ParseNat(s[..|s| - 1]) * 10 + DigitValue(s[|s| - 1])
  }

  /** Parsing the text `ToString` wrote gives back the number. */
  lemma {:induction false} ParseNatToString(n: nat)
    ensures ParseNat(NatToString(n)) == n
    decreases n
  {
    if n >= 10 {
      var s := NatToString(n / 10);
      ParseNatToString(n / 10);
      assert (s + [DigitChar(n % 10)])[..|s|] == s;
    }
  }
}
