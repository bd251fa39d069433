/** Character classes, digit strings and whitespace stripping, shared by the
    format checks and the scorer. */
module Chars {

  /** In a `str` pattern, Python 3 matches `\w` and `\s` against Unicode classes,
      and `str.strip()` removes exactly the characters for which `str.isspace()`
      holds, which is the class `\s` stands for. The model leaves both classes
      abstract: every check that uses them takes them as this parameter, and
      `AsciiAgrees` fixes the part of them that lies in ASCII. */
  datatype CharClasses = CharClasses(word: char -> bool, space: char -> bool)

  predicate IsAsciiDigit(c: char) { '0' <= c <= '9' }

  predicate IsAsciiLetter(c: char) { 'a' <= c <= 'z' || 'A' <= c <= 'Z' }

  /** The class `[a-zA-Z0-9]` the retailer rule counts. */
  predicate IsAsciiAlnum(c: char) { IsAsciiLetter(c) || IsAsciiDigit(c) }

  /** `\w` restricted to ASCII: letters, digits and the underscore. */
  predicate IsAsciiWord(c: char) { IsAsciiAlnum(c) || c == '_' }

  /** `\s` restricted to ASCII: tab, line feed, vertical tab, form feed,
      carriage return, the four separators U+001C to U+001F, and space. */
  predicate IsAsciiSpace(c: char) {
    c == ' ' || '\t' <= c <= '\r' || '\U{1C}' <= c <= '\U{1F}'
  }

  /** The classes agree with Python's on every ASCII character. */
  ghost predicate AsciiAgrees(cls: CharClasses) {
    && (forall c: char :: c < '\U{80}' ==> (cls.word(c) <==> IsAsciiWord(c)))
    && (forall c: char :: c < '\U{80}' ==> (cls.space(c) <==> IsAsciiSpace(c)))
  }

  // ---------------------------------------------------------------------------
  // Decimal digit strings
  // ---------------------------------------------------------------------------

  predicate AllDigits(s: string) {
    forall i :: 0 <= i < |s| ==> IsAsciiDigit(s[i])
  }

  function DigitValue(c: char): (d: nat)
    requires IsAsciiDigit(c)
    ensures d < 10
  {
    c as int - '0' as int
  }

  function DigitChar(d: nat): (c: char)
    requires d < 10
    ensures IsAsciiDigit(c) && DigitValue(c) == d
  {
    ('0' as int + d) as char
  }

  function Pow10(n: nat): (p: nat)
    ensures p >= 1
  {
    if n == 0 then 1 else 10 * Pow10(n - 1)
  }

  /** The number the digits of `s` spell (leading zeros allowed); a character
      that is not a digit reads as 0, which only the `%d` field's " d" form uses. */
  function DigitsValue(s: string): (v: nat)
    ensures v < Pow10(|s|)
  {
    if s == [] then 0
    else
      var c := s[|s| - 1];
      DigitsValue(s[..|s| - 1]) * 10 + (if IsAsciiDigit(c) then DigitValue(c) else 0)
  }

  /** Python's `str(n)` for a non-negative integer: decimal, no leading zero. */
  function NatToString(n: nat): (r: string)
    ensures |r| >= 1 && AllDigits(r)
    ensures DigitsValue(r) == n
    ensures r[0] == '0' ==> r == "0"
  {
    if n < 10 then [DigitChar(n)]
    else
      var prefix := NatToString(n / 10);
      var r := prefix + [DigitChar(n % 10)];
      assert r[..|r| - 1] == prefix;
      r
  }

  /** The value of a two-digit string. */
  lemma TwoDigitsValue(t: string)
    requires |t| == 2 && AllDigits(t)
    ensures DigitsValue(t) == DigitValue(t[0]) * 10 + DigitValue(t[1])
  {
    assert t[..1][..0] == [];
  }

  /** The value of a four-digit string. */
  lemma FourDigitsValue(t: string)
    requires |t| == 4 && AllDigits(t)
    ensures DigitsValue(t) == DigitValue(t[0]) * 1000 + DigitValue(t[1]) * 100 + DigitValue(t[2]) * 10 + DigitValue(t[3])
  {
    assert t[..3][..2] == t[..2];
    TwoDigitsValue(t[..2]);
  }

  /** A digit string spelled with exactly `width` digits (leading zeros). */
  function PadDigits(n: nat, width: nat): (r: string)
    requires n < Pow10(width)
    ensures |r| == width && AllDigits(r) && DigitsValue(r) == n
  {
    if width == 0 then []
    else
      var prefix := PadDigits(n / 10, width - 1);
      var r := prefix + [DigitChar(n % 10)];
      assert r[..|r| - 1] == prefix;
      r
  }

  // ---------------------------------------------------------------------------
  // Searching and stripping
  // ---------------------------------------------------------------------------

  /** Position of the first `c` in `s`, or `|s|` when there is none. */
  function IndexOf(s: string, c: char): (k: nat)
    ensures k <= |s|
    ensures k < |s| ==> s[k] == c
  {
    if s == [] then 0
    else if s[0] == c then 0
    else 1 + IndexOf(s[1..], c)
  }

  /** No `c` comes before the position `IndexOf` finds. */
  lemma {:induction false} IndexOfFirst(s: string, c: char)
    ensures forall i :: 0 <= i < IndexOf(s, c) ==> s[i] != c
  {
    if s != [] && s[0] != c {
      IndexOfFirst(s[1..], c);
      assert forall i :: 1 <= i < IndexOf(s, c) ==> s[i] == s[1..][i - 1];
    }
  }

  /** In a string that starts with digits and then `c`, the first `c` is the one after the digits. */
  lemma {:induction false} IndexAfterDigits(a: string, c: char, b: string)
    requires AllDigits(a) && !IsAsciiDigit(c)
    ensures IndexOf(a + [c] + b, c) == |a|
  {
    if a != [] {
      assert (a + [c] + b)[1..] == a[1..] + [c] + b;
      IndexAfterDigits(a[1..], c, b);
    }
  }

  /** Number of whitespace characters at the start of `s`. */
  function LeadingSpaces(cls: CharClasses, s: string): (k: nat)
    ensures k <= |s|
    ensures k < |s| ==> !cls.space(s[k])
  {
    if s != [] && cls.space(s[0]) then 1 + LeadingSpaces(cls, s[1..]) else 0
  }

  /** Everything `LeadingSpaces` counts is whitespace. */
  lemma {:induction false} LeadingSpacesAreSpaces(cls: CharClasses, s: string)
    ensures forall i :: 0 <= i < LeadingSpaces(cls, s) ==> cls.space(s[i])
  {
    if s != [] && cls.space(s[0]) {
      LeadingSpacesAreSpaces(cls, s[1..]);
      assert forall i :: 1 <= i < LeadingSpaces(cls, s) ==> s[i] == s[1..][i - 1];
    }
  }

  /** Number of whitespace characters at the end of `s`. */
  function TrailingSpaces(cls: CharClasses, s: string): (k: nat)
    ensures k <= |s|
    ensures k < |s| ==> !cls.space(s[|s| - 1 - k])
  {
    if s != [] && cls.space(s[|s| - 1]) then 1 + TrailingSpaces(cls, s[..|s| - 1]) else 0
  }

  /** Everything `TrailingSpaces` counts is whitespace. */
  lemma {:induction false} TrailingSpacesAreSpaces(cls: CharClasses, s: string)
    ensures forall i :: |s| - TrailingSpaces(cls, s) <= i < |s| ==> cls.space(s[i])
  {
    if s != [] && cls.space(s[|s| - 1]) {
      TrailingSpacesAreSpaces(cls, s[..|s| - 1]);
      assert forall i :: |s| - TrailingSpaces(cls, s) <= i < |s| - 1 ==> s[i] == s[..|s| - 1][i];
    }
  }

  /** Python's `str.strip()` with no argument; `StripSpec` says what it keeps. */
  function Strip(cls: CharClasses, s: string): (r: string)
    ensures |r| <= |s|
  {
    var a := LeadingSpaces(cls, s);
    var t := s[a..];
    t[..|t| - TrailingSpaces(cls, t)]
  }

  /** `str.strip()` keeps the longest middle part of `s` that neither starts
      nor ends with whitespace, and cuts away only whitespace on both sides. */
  lemma StripSpec(cls: CharClasses, s: string)
    ensures |Strip(cls, s)| <= |s| - LeadingSpaces(cls, s)
    ensures Strip(cls, s) == s[LeadingSpaces(cls, s)..][..|Strip(cls, s)|]
    ensures Strip(cls, s) != [] ==> !cls.space(Strip(cls, s)[0]) && !cls.space(Strip(cls, s)[|Strip(cls, s)| - 1])
    ensures forall i :: 0 <= i < LeadingSpaces(cls, s) ==> cls.space(s[i])
    ensures forall i :: LeadingSpaces(cls, s) + |Strip(cls, s)| <= i < |s| ==> cls.space(s[i])
  {
    var a := LeadingSpaces(cls, s);
    var t := s[a..];
    var r := Strip(cls, s);
    LeadingSpacesAreSpaces(cls, s);
    TrailingSpacesAreSpaces(cls, t);
    assert forall i :: a + |r| <= i < |s| ==> s[i] == t[i - a];
  }

  /** Stripping a string that neither starts nor ends with whitespace leaves it as it is. */
  lemma StripUnchanged(cls: CharClasses, s: string)
    requires s != [] ==> !cls.space(s[0]) && !cls.space(s[|s| - 1])
    ensures Strip(cls, s) == s
  {
    assert LeadingSpaces(cls, s) == 0;
    assert TrailingSpaces(cls, s) == 0;
  }

  /** Stripping is idempotent. */
  lemma StripIdempotent(cls: CharClasses, s: string)
    ensures Strip(cls, Strip(cls, s)) == Strip(cls, s)
  {
    StripSpec(cls, s);
    StripUnchanged(cls, Strip(cls, s));
  }

  /** A string strips to nothing exactly when every character of it is whitespace. */
  lemma StripEmptyIff(cls: CharClasses, s: string)
    ensures Strip(cls, s) == [] <==> forall i :: 0 <= i < |s| ==> cls.space(s[i])
  {
    StripSpec(cls, s);
    if forall i :: 0 <= i < |s| ==> cls.space(s[i]) {
      assert LeadingSpaces(cls, s) == |s|;
    }
  }

}
