/** The Python string built-ins the engine relies on: int() and str() on
    decimal numbers, str.find, str.lower, slicing with a possibly negative
    stop index and str.join. Only ASCII digits and letters are modelled. */
module Text {

  predicate IsDigit(c: char) { '0' <= c <= '9' }

  predicate IsLetter(c: char) { 'a' <= c <= 'z' || 'A' <= c <= 'Z' }

  predicate AllDigits(s: string) { forall i :: 0 <= i < |s| ==> IsDigit(s[i]) }

  predicate AllLetters(s: string) { forall i :: 0 <= i < |s| ==> IsLetter(s[i]) }

  function Min(a: int, b: int): int { if a <= b then a else b }

  /** The value of a decimal digit; 0 for any other character. */
  function DigitValue(c: char): nat
  {
    if IsDigit(c) then c as int - '0' as int else 0
  }

  /** int(s) for a string of decimal digits; leading zeros are allowed. */
  function DigitsToNat(s: string): nat
  {
    if s == [] then 0 else 10 * DigitsToNat(s[..|s| - 1]) + DigitValue(s[|s| - 1])
  }

  function DigitChar(d: nat): (c: char)
    requires d < 10
    ensures IsDigit(c) && c as int - '0' as int == d
  {
    ('0' as int + d) as char
  }

  /** str(n): the canonical decimal spelling of n, which int() reads back as n. */
  function NatToString(n: nat): (s: string)
    ensures |s| > 0 && AllDigits(s)
    ensures DigitsToNat(s) == n
    ensures |s| > 1 ==> s[0] != '0'
  {
    if n < 10 then
      var s := [DigitChar(n)];
      assert s[..0] == [];
      s
    else
      var prefix := NatToString(n / 10);
      var s := prefix + [DigitChar(n % 10)];
      assert s[..|s| - 1] == prefix;
      s
  }

  /** The number of consecutive digits in s starting at from. */
  function DigitRun(s: string, from: nat): (n: nat)
    requires from <= |s|
    ensures from + n <= |s| && forall x :: from <= x < from + n ==> IsDigit(s[x])
    ensures from + n < |s| ==> !IsDigit(s[from + n])
    decreases |s| - from
  {
    if from < |s| && IsDigit(s[from]) then 1 + DigitRun(s, from + 1) else 0
  }

  /** The number of consecutive ASCII letters in s starting at from. */
  function LetterRun(s: string, from: nat): (n: nat)
    requires from <= |s|
    ensures from + n <= |s| && forall x :: from <= x < from + n ==> IsLetter(s[x])
    ensures from + n < |s| ==> !IsLetter(s[from + n])
    decreases |s| - from
  {
    if from < |s| && IsLetter(s[from]) then 1 + LetterRun(s, from + 1) else 0
  }

  /** A run of n digits starting at from that is not followed by a digit is what DigitRun counts. */
  lemma {:induction false} DigitRunIs(s: string, from: nat, n: nat)
    requires from + n <= |s| && forall x :: from <= x < from + n ==> IsDigit(s[x])
    requires from + n == |s| || !IsDigit(s[from + n])
    ensures DigitRun(s, from) == n
    decreases n
  {
    if n > 0 {
      DigitRunIs(s, from + 1, n - 1);
    }
  }

  /** The same fact for runs of letters. */
  lemma {:induction false} LetterRunIs(s: string, from: nat, n: nat)
    requires from + n <= |s| && forall x :: from <= x < from + n ==> IsLetter(s[x])
    requires from + n == |s| || !IsLetter(s[from + n])
    ensures LetterRun(s, from) == n
    decreases n
  {
    if n > 0 {
      LetterRunIs(s, from + 1, n - 1);
    }
  }

  function LowerChar(c: char): char
  {
    if 'A' <= c <= 'Z' then (c as int - 'A' as int + 'a' as int) as char else c
  }

  /** str.lower restricted to ASCII letters. */
  function Lower(s: string): string
  {
    seq(|s|, i requires 0 <= i < |s| => LowerChar(s[i]))
  }

  /** pat occurs in s starting at position i. */
  predicate OccursAt(s: string, pat: string, i: nat)
  {
    i + |pat| <= |s| && s[i..i + |pat|] == pat
  }

  /** str.find: the first position at which pat occurs in s, or -1 when it does not occur. */
  function Find(s: string, pat: string): (r: int)
    ensures r == -1 || (0 <= r && OccursAt(s, pat, r))
    ensures r == -1 <==> forall i: nat :: !OccursAt(s, pat, i)
    ensures forall i: nat :: i < r ==> !OccursAt(s, pat, i)
  {
    FindFrom(s, pat, 0)
  }

  function FindFrom(s: string, pat: string, from: nat): (r: int)
    requires from <= |s|
    ensures r == -1 || (from <= r && OccursAt(s, pat, r))
    ensures forall i: nat :: from <= i && (r == -1 || i < r) ==> !OccursAt(s, pat, i)
    decreases |s| - from
  {
    if from + |pat| > |s| then -1
    else if s[from..from + |pat|] == pat then from
    else FindFrom(s, pat, from + 1)
  }

  /** s[0:stop] with Python's slice semantics, where a negative stop counts from the end. */
  function PySlicePrefix(s: string, stop: int): string
  {
    if stop >= 0 then s[..Min(stop, |s|)]
    else if |s| + stop > 0 then s[..|s| + stop]
    else []
  }

  /** sep.join(parts). */
  function Join(parts: seq<string>, sep: string): string
  {
    if |parts| == 0 then ""
    else if |parts| == 1 then parts[0]
    else parts[0] + sep + Join(parts[1..], sep)
  }
}
