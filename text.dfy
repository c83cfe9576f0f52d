/** The string operations the checker relies on: Python's `str.strip`, `rstrip`,
    `upper`, `lower`, `startswith`, `endswith`, the `in` substring test, `int()` and
    `str()` of an integer, and the two-character regular expressions. Characters are
    classified over ASCII only. */
module Text {
  import opened Wrappers

  /** `str.isspace()` restricted to ASCII: tab, line feed, vertical tab, form feed,
      carriage return, the four information separators and the space. */
  predicate IsSpace(c: char) {
    (9 <= c as int <= 13) || (28 <= c as int <= 32)
  }

  predicate IsDigit(c: char) { '0' <= c <= '9' }
  predicate IsLowerLetter(c: char) { 'a' <= c <= 'z' }
  predicate IsUpperLetter(c: char) { 'A' <= c <= 'Z' }

  /** The `\w` class of Python's `re`, restricted to ASCII. */
  predicate IsWordChar(c: char) {
    IsLowerLetter(c) || IsUpperLetter(c) || IsDigit(c) || c == '_'
  }

  function ToUpper(c: char): char {
    if IsLowerLetter(c) then (c as int - 32) as char else c
  }

  function ToLower(c: char): char {
    if IsUpperLetter(c) then (c as int + 32) as char else c
  }

  /** `str.upper()` on ASCII letters. */
  function Upper(s: string): string {
    seq(|s|, i requires 0 <= i < |s| => ToUpper(s[i]))
  }

  /** `str.lower()` on ASCII letters. */
  function Lower(s: string): string {
    seq(|s|, i requires 0 <= i < |s| => ToLower(s[i]))
  }

  /** A key as Python's `configparser` delivers it: no upper-case letter. */
  predicate NoUpperLetters(s: string) {
    forall i :: 0 <= i < |s| ==> !IsUpperLetter(s[i])
  }

  lemma UpperIdempotent(s: string)
    ensures Upper(Upper(s)) == Upper(s)
  {
    assert forall i :: 0 <= i < |s| ==> Upper(Upper(s))[i] == Upper(s)[i];
  }

  /** Upper-casing loses nothing on strings that have no upper-case letter. */
  lemma UpperInjective(a: string, b: string)
    requires NoUpperLetters(a) && NoUpperLetters(b)
    requires Upper(a) == Upper(b)
    ensures a == b
  {
    assert |a| == |Upper(a)| == |Upper(b)| == |b|;
    forall i | 0 <= i < |a|
      ensures a[i] == b[i]
    {
      assert ToUpper(a[i]) == Upper(a)[i] == Upper(b)[i] == ToUpper(b[i]);
    }
  }

  /** `str.lstrip()`: the longest suffix that does not start with white space. */
  function LStrip(s: string): (r: string)
    ensures |r| <= |s| && r == s[|s| - |r|..]
    ensures forall i :: 0 <= i < |s| - |r| ==> IsSpace(s[i])
    ensures r == [] || !IsSpace(r[0])
    decreases |s|
  {
    if |s| > 0 && IsSpace(s[0]) then LStrip(s[1..]) else s
  }

  /** `str.rstrip()`: the longest prefix that does not end with white space. */
  function RStrip(s: string): (r: string)
    ensures |r| <= |s| && r == s[..|r|]
    ensures forall i :: |r| <= i < |s| ==> IsSpace(s[i])
    ensures r == [] || !IsSpace(r[|r| - 1])
    decreases |s|
  {
    if |s| > 0 && IsSpace(s[|s| - 1]) then RStrip(s[..|s| - 1]) else s
  }

  /** `str.strip()`. */
  function Strip(s: string): string {
    LStrip(RStrip(s))
  }

  /** A line strips to nothing exactly when every character of it is white space. */
  lemma StripEmpty(s: string)
    ensures Strip(s) == [] <==> forall i :: 0 <= i < |s| ==> IsSpace(s[i])
  {
  }

  predicate StartsWith(s: string, prefix: string) {
    |prefix| <= |s| && s[..|prefix|] == prefix
  }

  predicate EndsWith(s: string, suffix: string) {
    |suffix| <= |s| && s[|s| - |suffix|..] == suffix
  }

  /** Python's `t in s` on strings. */
  predicate Contains(s: string, t: string)
    decreases |s|
  {
    StartsWith(s, t) || (|s| > 0 && Contains(s[1..], t))
  }

  /** `t` occurs in `s` starting at position `i`. */
  predicate OccursAt(s: string, t: string, i: int) {
    0 <= i <= |s| - |t| && s[i..i + |t|] == t
  }

  /** `t in s` holds exactly when `t` occurs at some position of `s`. */
  lemma {:induction false} ContainsAt(s: string, t: string)
    ensures Contains(s, t) <==> exists i :: OccursAt(s, t, i)
    decreases |s|
  {
    if StartsWith(s, t) {
      assert OccursAt(s, t, 0);
    }
    if |s| > 0 {
      ContainsAt(s[1..], t);
      if Contains(s[1..], t) {
        var i :| OccursAt(s[1..], t, i);
        assert OccursAt(s, t, i + 1);
      }
      if exists i :: OccursAt(s, t, i) {
        var i :| OccursAt(s, t, i);
        if i > 0 {
          assert OccursAt(s[1..], t, i - 1);
        }
      }
    } else if exists i :: OccursAt(s, t, i) {
      var i :| OccursAt(s, t, i);
      assert i == 0 && t == [];
    }
  }

  /** A regular expression `[A][B]` found anywhere in `s`: some character satisfying
      `first` is directly followed by one satisfying `second`. */
  predicate HasPair(s: string, first: char -> bool, second: char -> bool)
    decreases |s|
  {
    |s| >= 2 && ((first(s[0]) && second(s[1])) || HasPair(s[1..], first, second))
  }

  lemma {:induction false} HasPairAt(s: string, first: char -> bool, second: char -> bool)
    ensures HasPair(s, first, second) <==>
            exists i :: 0 <= i < |s| - 1 && first(s[i]) && second(s[i + 1])
    decreases |s|
  {
    if |s| >= 2 {
      HasPairAt(s[1..], first, second);
      if exists i :: 0 <= i < |s| - 1 && first(s[i]) && second(s[i + 1]) {
        var i :| 0 <= i < |s| - 1 && first(s[i]) && second(s[i + 1]);
        if i > 0 {
          assert first(s[1..][i - 1]) && second(s[1..][i]);
        }
      }
    }
  }

  // Decimal numerals

  function Digit(d: nat): char
    requires d < 10
  {
    ('0' as int + d) as char
  }

  function DigitValue(c: char): nat
    requires IsDigit(c)
  {
    c as int - '0' as int
  }

  predicate AllDigits(s: string) {
    forall i :: 0 <= i < |s| ==> IsDigit(s[i])
  }

  /** The value of a string of decimal digits. */
  function ParseDigits(s: string): nat
    requires AllDigits(s)
  {
    if s == [] then 0 else 10 * ParseDigits(s[..|s| - 1]) + DigitValue(s[|s| - 1])
  }

  /** Appending a digit multiplies the value by ten and adds the digit. */
  lemma ParseDigitsSnoc(s: string, d: nat)
    requires AllDigits(s) && d < 10
    ensures AllDigits(s + [Digit(d)])
    ensures ParseDigits(s + [Digit(d)]) == 10 * ParseDigits(s) + d
  {
    var t := s + [Digit(d)];
    assert t[..|t| - 1] == s;
  }

  /** `str(n)` for a natural number: the shortest decimal numeral. */
  function NatToString(n: nat): string
    decreases n
  {
    if n < 10 then [Digit(n)] else NatToString(n / 10) + [Digit(n % 10)]
  }

  /** `str(i)`, which is what an f-string renders for an integer. */
  function IntToString(i: int): string {
    if i < 0 then "-" + NatToString(-i) else NatToString(i)
  }

  /** `int(s)` for an optional sign followed by ASCII digits; `None` where Python's
      `int()` raises a `ValueError`. */
  function ParseInt(s: string): Option<int> {
    if |s| > 0 && (s[0] == '+' || s[0] == '-') then
      var digits := s[1..];
      if |digits| > 0 && AllDigits(digits) then
        Some(if s[0] == '-' then -(ParseDigits(digits) as int) else ParseDigits(digits))
      else None
    else if |s| > 0 && AllDigits(s) then Some(ParseDigits(s))
    else None
  }

  lemma {:induction false} NatToStringRoundTrip(n: nat)
    ensures |NatToString(n)| > 0 && AllDigits(NatToString(n))
    ensures ParseDigits(NatToString(n)) == n
    ensures NatToString(n)[0] != '-' && NatToString(n)[0] != '+'
    decreases n
  {
    if n >= 10 {
      NatToStringRoundTrip(n / 10);
      var s := NatToString(n);
      assert s[..|s| - 1] == NatToString(n / 10);
    }
  }

  /** Reading back what `str()` rendered gives the number again. */
  lemma ParseIntRoundTrip(i: int)
    ensures ParseInt(IntToString(i)) == Some(i)
  {
    if i < 0 {
      NatToStringRoundTrip(-i);
      assert IntToString(i)[1..] == NatToString(-i);
    } else {
      NatToStringRoundTrip(i);
    }
  }
}
