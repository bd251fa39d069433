/** The four regular expressions of the validator (app.py:20-23), written out as
    predicates, and the conversion `float(...)` that follows the two money checks.

    `re.match` anchors at the start; the pattern's `$` matches at the end of the
    string or just before a newline that ends it, so each `^X$` check accepts `s`
    when `s` is in `X`, or when `s` is a string in `X` followed by one "\n". */
module Patterns {
  import opened Wrappers
  import opened Chars

  predicate EndsWithNewline(s: string) { |s| >= 1 && s[|s| - 1] == '\n' }

  // ---------------------------------------------------------------------------
  // ^[\w\s\-&]+$   (retailer)
  // ---------------------------------------------------------------------------

  predicate RetailerChar(cls: CharClasses, c: char) {
    cls.word(c) || cls.space(c) || c == '-' || c == '&'
  }

  predicate RetailerBody(cls: CharClasses, s: string) {
    |s| >= 1 && forall i :: 0 <= i < |s| ==> RetailerChar(cls, s[i])
  }

  predicate MatchesRetailer(cls: CharClasses, s: string) {
    RetailerBody(cls, s) || (EndsWithNewline(s) && RetailerBody(cls, s[..|s| - 1]))
  }

  // ---------------------------------------------------------------------------
  // ^[\w\s\-]+$   (item description, applied to the stripped text)
  // ---------------------------------------------------------------------------

  predicate DescriptionChar(cls: CharClasses, c: char) {
    cls.word(c) || cls.space(c) || c == '-'
  }

  predicate DescriptionBody(cls: CharClasses, s: string) {
    |s| >= 1 && forall i :: 0 <= i < |s| ==> DescriptionChar(cls, s[i])
  }

  predicate MatchesDescription(cls: CharClasses, s: string) {
    DescriptionBody(cls, s) || (EndsWithNewline(s) && DescriptionBody(cls, s[..|s| - 1]))
  }

  /** Both classes contain "\n", so the extra case of `$` adds nothing to them:
      the full-match check is exactly "one or more characters of the class". */
  lemma NewlineAbsorbed(cls: CharClasses, s: string)
    requires AsciiAgrees(cls)
    ensures MatchesRetailer(cls, s) <==> RetailerBody(cls, s)
    ensures MatchesDescription(cls, s) <==> DescriptionBody(cls, s)
  {
    if EndsWithNewline(s) && RetailerBody(cls, s[..|s| - 1]) {
      assert cls.space('\n');
      forall i | 0 <= i < |s| ensures RetailerChar(cls, s[i]) {
        if i < |s| - 1 { assert s[i] == s[..|s| - 1][i]; }
      }
    }
    if EndsWithNewline(s) && DescriptionBody(cls, s[..|s| - 1]) {
      assert cls.space('\n');
      forall i | 0 <= i < |s| ensures DescriptionChar(cls, s[i]) {
        if i < |s| - 1 { assert s[i] == s[..|s| - 1][i]; }
      }
    }
  }

  // ---------------------------------------------------------------------------
  // ^\d+\.\d{2}$   (item price and total)
  // ---------------------------------------------------------------------------

  /** One or more digits, a dot, exactly two digits. */
  predicate MoneyBody(s: string) {
    && |s| >= 4
    && AllDigits(s[..|s| - 3])
    && s[|s| - 3] == '.'
    && IsAsciiDigit(s[|s| - 2]) && IsAsciiDigit(s[|s| - 1])
  }

  predicate MatchesMoney(s: string) {
    MoneyBody(s) || (EndsWithNewline(s) && MoneyBody(s[..|s| - 1]))
  }

  /** A money amount as the pattern spells it: whole dollars and two cent digits. */
  datatype Money = Money(dollars: nat, cents: nat)

  /** The part of an accepted string that the pattern's `\d+\.\d{2}` matched. */
  function MoneyText(s: string): (t: string)
    requires MatchesMoney(s)
    ensures MoneyBody(t)
    ensures t == s || s == t + "\n"
  {
    if MoneyBody(s) then s else s[..|s| - 1]
  }

  /** The amount an accepted string denotes, read from its two digit runs. */
  function MoneyOf(s: string): (m: Money)
    requires MatchesMoney(s)
    ensures m.cents < 100
  {
    var t := MoneyText(s);
    Money(DigitsValue(t[..|t| - 3]), DigitsValue(t[|t| - 2..]))
  }

  /** The amount in cents; this is what `round(float(s) * 100)` computes for an
      accepted string of ordinary magnitude. */
  function CentsOf(s: string): nat
    requires MatchesMoney(s)
  {
    MoneyOf(s).dollars * 100 + MoneyOf(s).cents
  }

  /** The canonical spelling of an amount: no leading zeros, two cent digits. */
  function FormatMoney(m: Money): string
    requires m.cents < 100
  {
    NatToString(m.dollars) + "." + [DigitChar(m.cents / 10), DigitChar(m.cents % 10)]
  }

  /** Every amount has a spelling the pattern accepts and that reads back as it. */
  lemma MoneyRoundTrip(m: Money)
    requires m.cents < 100
    ensures MatchesMoney(FormatMoney(m))
    ensures MoneyOf(FormatMoney(m)) == m
  {
    var d := NatToString(m.dollars);
    var s := FormatMoney(m);
    assert s[..|s| - 3] == d;
    assert s[|s| - 2..] == [DigitChar(m.cents / 10), DigitChar(m.cents % 10)];
    assert MoneyBody(s);
    TwoDigitsValue(s[|s| - 2..]);
  }

  /** The price examples: "1.50" passes, "1.5" and "abc" do not, and neither do
      an empty whole part or a third decimal; a single final newline is let through. */
  lemma MoneyExamples()
    ensures MatchesMoney("1.50") && MoneyOf("1.50") == Money(1, 50)
    ensures !MatchesMoney("1.5")
    ensures !MatchesMoney("abc")
    ensures !MatchesMoney(".50")
    ensures !MatchesMoney("1.500")
    ensures MatchesMoney("1.50\n") && MoneyOf("1.50\n") == Money(1, 50)
    ensures !MatchesMoney("1.50\n\n")
  {
    assert "1.50"[..1] == "1";
    TwoDigitsValue("50");
    assert "1.50"[2..] == "50";
    assert "1.50\n"[..4][2..] == "50";
    assert "1.50\n"[..4] == "1.50";
    assert "1.500"[..2] == "1.";
    assert "1.50\n\n"[..5] == "1.50\n";
  }

  // ---------------------------------------------------------------------------
  // float(s)
  // ---------------------------------------------------------------------------

  /** A decimal numeral as `float` reads it: a sign, the digits before the
      dot and the digits after it. */
  datatype Decimal = Decimal(negative: bool, whole: string, fraction: string)

  /** The numeral's value is `Mantissa(d) / 10^|d.fraction|`. */
  function Mantissa(d: Decimal): int {
    var m := DigitsValue(d.whole) * Pow10(|d.fraction|) + DigitsValue(d.fraction);
    if d.negative then -m else m
  }

  /** `float(s)` on the decimal strings it accepts: surrounding whitespace, an
      optional sign, then digits with an optional dot and fraction (at least one
      digit in all). Exponents, `inf`, `nan` and digit-group underscores, which
      `float` also accepts, are not part of this model; the validator only calls
      it on strings the money pattern already accepted. */
  function ParseFloat(cls: CharClasses, s: string): Option<Decimal>
  {
    ReadDecimal(Strip(cls, s))
  }

  /** The numeral in text already stripped of surrounding whitespace. */
  function ReadDecimal(t: string): Option<Decimal>
  {
    var negative := |t| >= 1 && t[0] == '-';
    var body := if |t| >= 1 && (t[0] == '+' || t[0] == '-') then t[1..] else t;
    var k := IndexOf(body, '.');
    var whole := body[..k];
    var fraction := if k < |body| then body[k + 1..] else [];
    if AllDigits(whole) && AllDigits(fraction) && |whole| + |fraction| >= 1 then
      Some(Decimal(negative, whole, fraction))
    else None
  }

  /** A string the money pattern accepts always converts, and to the amount the
      pattern's digits spell, in cents; so the "is not a valid number" branches
      after the two money checks (app.py:61-64, 71-74) can never be taken. */
  lemma FloatAcceptsMoney(cls: CharClasses, s: string)
    requires AsciiAgrees(cls)
    requires MatchesMoney(s)
    ensures ParseFloat(cls, s).Some?
    ensures |ParseFloat(cls, s).value.fraction| == 2
    ensures Mantissa(ParseFloat(cls, s).value) == CentsOf(s)
  {
    MoneyDecimal(cls, s);
    assert Pow10(2) == 100;
  }

  /** The numeral `float` reads from an accepted money string: no sign, the
      dollar digits, the two cent digits. */
  lemma MoneyDecimal(cls: CharClasses, s: string)
    requires AsciiAgrees(cls)
    requires MatchesMoney(s)
    ensures var t := MoneyText(s);
      ParseFloat(cls, s) == Some(Decimal(false, t[..|t| - 3], t[|t| - 2..]))
  {
    var t := MoneyText(s);
    assert Strip(cls, s) == t by { StripMoney(cls, s); }
    assert ReadDecimal(t) == Some(Decimal(false, t[..|t| - 3], t[|t| - 2..])) by { ReadMoneyText(t); }
  }

  lemma ReadMoneyText(t: string)
    requires MoneyBody(t)
    ensures ReadDecimal(t) == Some(Decimal(false, t[..|t| - 3], t[|t| - 2..]))
  {
    assert IndexOf(t, '.') == |t| - 3 by { DotOfMoney(t); }
    assert t[0] != '+' && t[0] != '-' by { assert t[0] == t[..|t| - 3][0]; }
    assert t[|t| - 3 + 1..] == t[|t| - 2..];
    assert AllDigits(t[|t| - 2..]);
  }

  /** Stripping an accepted money string leaves the text the pattern matched. */
  lemma StripMoney(cls: CharClasses, s: string)
    requires AsciiAgrees(cls)
    requires MatchesMoney(s)
    ensures Strip(cls, s) == MoneyText(s)
  {
    var t := MoneyText(s);
    assert IsAsciiDigit(t[0]) by { assert t[0] == t[..|t| - 3][0]; }
    assert !cls.space(t[0]) && !cls.space(t[|t| - 1]);
    assert s[0] == t[0];
    assert LeadingSpaces(cls, s) == 0;
    if s != t {
      assert cls.space(s[|s| - 1]);
      assert s[|s| - 2] == t[|t| - 1];
      assert TrailingSpaces(cls, s) == 1;
    } else {
      assert TrailingSpaces(cls, s) == 0;
    }
  }

  /** The first dot of the matched text is the one before the two cent digits. */
  lemma DotOfMoney(t: string)
    requires MoneyBody(t)
    ensures IndexOf(t, '.') == |t| - 3
  {
    assert t == t[..|t| - 3] + ['.'] + t[|t| - 2..];
    IndexAfterDigits(t[..|t| - 3], '.', t[|t| - 2..]);
  }

}
