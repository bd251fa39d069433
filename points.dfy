/** `calculate_points` (app.py:78-118): the seven additive rules, applied to a
    receipt the validator accepted.

    Money is read as whole cents from the `d+.dd` text the validator checked
    (`CentsOf`). The source computes with floats (`float`, `is_integer`,
    `round(total * 100)`, `math.ceil(price * 0.2)`); the model takes those to
    agree with exact cent arithmetic on such strings, which holds for amounts
    of ordinary size and is assumed here, not proved. */
module Points {
  import opened Chars
  import opened Patterns
  import opened Clock
  import opened Receipts
  import opened Validator

  // ---------------------------------------------------------------------------
  // Rule 1: one point per ASCII letter or digit of the retailer (app.py:82-84)
  // ---------------------------------------------------------------------------

  /** `re.sub(r'[^a-zA-Z0-9]', '', s)`: `s` with every character outside
      `[a-zA-Z0-9]` removed, the others kept in order. */
  function AlnumOnly(s: string): (r: string)
    ensures |r| <= |s|
    ensures forall i :: 0 <= i < |r| ==> IsAsciiAlnum(r[i])
  {
    if s == [] then []
    else AlnumOnly(s[..|s| - 1]) + (if IsAsciiAlnum(s[|s| - 1]) then [s[|s| - 1]] else [])
  }

  lemma {:induction false} AlnumOnlyAppend(a: string, b: string)
    ensures AlnumOnly(a + b) == AlnumOnly(a) + AlnumOnly(b)
  {
    if b == [] {
      assert a + b == a;
    } else {
      assert (a + b)[..|a + b| - 1] == a + b[..|b| - 1];
      AlnumOnlyAppend(a, b[..|b| - 1]);
    }
  }

  /** What `re.sub` keeps: of each letter and digit exactly as many as `s`
      has, and nothing else. */
  lemma {:induction false} AlnumOnlyCounts(s: string)
    ensures forall c :: multiset(AlnumOnly(s))[c] == if IsAsciiAlnum(c) then multiset(s)[c] else 0
  {
    if s != [] {
      var init := s[..|s| - 1];
      var last := s[|s| - 1];
      AlnumOnlyCounts(init);
      assert s == init + [last];
      assert multiset(s) == multiset(init) + multiset{last};
      var tail := if IsAsciiAlnum(last) then [last] else [];
      assert forall i :: |AlnumOnly(init)| <= i < |AlnumOnly(s)| ==> AlnumOnly(s)[i] == last;
      assert multiset(AlnumOnly(s)) == multiset(AlnumOnly(init)) + multiset(tail);
    }
  }

  /** A retailer made of letters and digits only is kept whole, and only then. */
  lemma {:induction false} AlnumOnlyUnchanged(s: string)
    ensures AlnumOnly(s) == s <==> forall i :: 0 <= i < |s| ==> IsAsciiAlnum(s[i])
  {
    if forall i :: 0 <= i < |s| ==> IsAsciiAlnum(s[i]) {
      AlnumOnlyKeepsAlnum(s);
    }
    if AlnumOnly(s) == s {
      assert forall i :: 0 <= i < |s| ==> IsAsciiAlnum(AlnumOnly(s)[i]);
    }
  }

  lemma {:induction false} AlnumOnlyKeepsAlnum(s: string)
    requires forall i :: 0 <= i < |s| ==> IsAsciiAlnum(s[i])
    ensures AlnumOnly(s) == s
  {
    if s != [] {
      var init := s[..|s| - 1];
      assert forall i :: 0 <= i < |init| ==> init[i] == s[i];
      AlnumOnlyKeepsAlnum(init);
      assert s == init + [s[|s| - 1]];
    }
  }

  function RetailerPoints(retailer: string): nat {
    |AlnumOnly(retailer)|
  }

  /** Rule 1 counts the letters and digits of the retailer: never more points
      than characters, and a character outside `[a-zA-Z0-9]` (underscore,
      space, `-`, `&`, any non-ASCII letter) adds nothing. */
  lemma {:induction false} RetailerPointsBounds(a: string, c: char, b: string)
    ensures RetailerPoints(a + [c] + b) == RetailerPoints(a) + RetailerPoints(b) + (if IsAsciiAlnum(c) then 1 else 0)
    ensures RetailerPoints(a) <= |a|
  {
    AlnumOnlyAppend(a + [c], b);
    AlnumOnlyAppend(a, [c]);
    assert [c][..0] == [];
  }

  // ---------------------------------------------------------------------------
  // Rules 2 and 3: the total (app.py:87-94)
  // ---------------------------------------------------------------------------

  /** Rule 2: `float(total).is_integer()`, that is, no cents: 50 points exactly
      when the amount in cents is a multiple of 100. */
  function RoundDollarPoints(total: string): (r: nat)
    requires MatchesMoney(total)
    ensures r == (if CentsOf(total) % 100 == 0 then 50 else 0)
  {
    WholeDollars(MoneyOf(total).dollars, MoneyOf(total).cents);
    if MoneyOf(total).cents == 0 then 50 else 0
  }

  lemma WholeDollars(dollars: nat, cents: nat)
    requires cents < 100
    ensures (dollars * 100 + cents) % 100 == cents
  {
  }

  /** Rule 3: `round(total * 100) % 25 == 0`. */
  function QuarterPoints(total: string): nat
    requires MatchesMoney(total)
  {
    if CentsOf(total) % 25 == 0 then 25 else 0
  }

  /** Rule 3 pays exactly for the cent parts 00, 25, 50 and 75, whatever the dollars. */
  lemma QuarterIff(total: string)
    requires MatchesMoney(total)
    ensures QuarterPoints(total) == 25 <==> MoneyOf(total).cents in {0, 25, 50, 75}
    ensures QuarterPoints(total) == 0 <==> MoneyOf(total).cents !in {0, 25, 50, 75}
  {
    var m := MoneyOf(total);
    assert CentsOf(total) % 25 == m.cents % 25 by {
      QuarterOfDollars(m.dollars, m.cents);
    }
    QuarterCents(m.cents);
  }

  lemma QuarterOfDollars(dollars: nat, cents: nat)
    ensures (dollars * 100 + cents) % 25 == cents % 25
  {
    assert dollars * 100 + cents == 25 * (4 * dollars) + cents;
  }

  lemma QuarterCents(cents: nat)
    requires cents < 100
    ensures cents % 25 == 0 <==> cents in {0, 25, 50, 75}
  {
    if cents % 25 == 0 {
      assert cents == 25 * (cents / 25);
    }
  }

  /** A whole-dollar total earns both total rules: 75 points. */
  lemma WholeDollarEarnsBoth(total: string)
    requires MatchesMoney(total)
    ensures MoneyOf(total).cents == 0 <==> RoundDollarPoints(total) + QuarterPoints(total) == 75
  {
    QuarterIff(total);
  }

  // ---------------------------------------------------------------------------
  // Rules 4 and 5: the items (app.py:97-105)
  // ---------------------------------------------------------------------------

  /** Rule 4: five points for every two items. */
  function PairPoints(count: nat): nat {
    (count / 2) * 5
  }

  /** Five points per complete pair; an odd item out adds nothing. */
  lemma PairPointsPerPair(pairs: nat)
    ensures PairPoints(2 * pairs) == 5 * pairs
    ensures PairPoints(2 * pairs + 1) == 5 * pairs
  {
  }

  /** `math.ceil(price * 0.2)` for a price of `cents` cents: a fifth of the
      price in dollars, i.e. `cents / 500`, rounded up. */
  function PriceBonus(cents: nat): (r: nat)
    ensures 500 * r >= cents
    ensures r == 0 || 500 * (r - 1) < cents
  {
    (cents + 499) / 500
  }

  /** Rule 5 for one item: the bonus when the stripped description's length is
      a multiple of 3, nothing otherwise. */
  function ItemPoints(cls: CharClasses, item: Item): nat
    requires ItemValid(cls, item)
  {
    if |Strip(cls, item.shortDescription.value)| % 3 == 0 then PriceBonus(CentsOf(item.price.value)) else 0
  }

  predicate AllItemsValid(cls: CharClasses, items: seq<Item>) {
    forall i :: 0 <= i < |items| ==> ItemValid(cls, items[i])
  }

  /** Rule 5 for a list of items. */
  function DescriptionPoints(cls: CharClasses, items: seq<Item>): nat
    requires AllItemsValid(cls, items)
  {
    if items == [] then 0
    else DescriptionPoints(cls, items[..|items| - 1]) + ItemPoints(cls, items[|items| - 1])
  }

  /** Rule 5 adds item by item: the points of a list are those of its parts. */
  lemma {:induction false} DescriptionPointsAppend(cls: CharClasses, a: seq<Item>, b: seq<Item>)
    requires AllItemsValid(cls, a) && AllItemsValid(cls, b)
    ensures AllItemsValid(cls, a + b)
    ensures DescriptionPoints(cls, a + b) == DescriptionPoints(cls, a) + DescriptionPoints(cls, b)
  {
    assert forall i :: 0 <= i < |a + b| ==> (a + b)[i] == if i < |a| then a[i] else b[i - |a|];
    if b != [] {
      var b' := b[..|b| - 1];
      assert (a + b)[..|a + b| - 1] == a + b';
      assert AllItemsValid(cls, b') by {
        assert forall i :: 0 <= i < |b'| ==> b'[i] == b[i];
      }
      DescriptionPointsAppend(cls, a, b');
    } else {
      assert a + b == a;
    }
  }

  /** One more pass of the loop over a list's first `i` items. */
  lemma DescriptionPointsStep(cls: CharClasses, items: seq<Item>, i: nat)
    requires AllItemsValid(cls, items)
    requires i < |items|
    ensures AllItemsValid(cls, items[..i]) && AllItemsValid(cls, items[..i + 1])
    ensures DescriptionPoints(cls, items[..i + 1]) == DescriptionPoints(cls, items[..i]) + ItemPoints(cls, items[i])
  {
    assert items[..i + 1][..i] == items[..i];
    assert forall k :: 0 <= k < i + 1 ==> items[..i + 1][k] == items[k];
  }

  /** Only items whose stripped description has a length divisible by 3 score:
      a list with none of them scores 0 under rule 5. */
  lemma {:induction false} DescriptionPointsNone(cls: CharClasses, items: seq<Item>)
    requires AllItemsValid(cls, items)
    requires forall i :: 0 <= i < |items| ==> |Strip(cls, items[i].shortDescription.value)| % 3 != 0
    ensures DescriptionPoints(cls, items) == 0
  {
    if items != [] {
      var init := items[..|items| - 1];
      assert forall i :: 0 <= i < |init| ==> init[i] == items[i];
      DescriptionPointsNone(cls, init);
    }
  }

  // ---------------------------------------------------------------------------
  // Rules 6 and 7: date and time (app.py:108-116)
  // ---------------------------------------------------------------------------

  /** Rule 6: six points for an odd day of the month. */
  function OddDayPoints(date: Date): nat {
    if date.day % 2 != 0 then 6 else 0
  }

  /** Rule 6 read off the purchase date as written: an accepted date earns the
      six points exactly when its last character is an odd digit, whichever of
      the `%d` spellings the day uses. */
  lemma OddDayFromText(s: string)
    requires ParseDate(s).Some?
    ensures |s| > 0 && (OddDayPoints(ParseDate(s).value) == 6 <==> s[|s| - 1] in "13579")
  {
    var rest := s[5..];
    var k := IndexOf(rest, '-');
    var dt := rest[k + 1..];
    assert ParseDate(s).value.day == DigitsValue(dt);
    assert dt[|dt| - 1] == s[|s| - 1];
    LastDigitParity(dt);
  }

  /** A numeral is odd exactly when its last digit is. */
  lemma LastDigitParity(t: string)
    requires |t| >= 1 && IsAsciiDigit(t[|t| - 1])
    ensures DigitsValue(t) % 2 == 1 <==> t[|t| - 1] in "13579"
  {
    var c := t[|t| - 1];
    var a := DigitsValue(t[..|t| - 1]);
    assert DigitsValue(t) == 2 * (a * 5) + DigitValue(c);
  }

  /** Rule 7: ten points from 14:00 to 16:00, both included. */
  function TimeWindowPoints(time: Time): nat {
    var minutes := time.hour * 60 + time.minute;
    if 14 * 60 <= minutes <= 16 * 60 then 10 else 0
  }

  /** On a time of day, rule 7 pays for the hours 14 and 15 and for 16:00 exactly. */
  lemma TimeWindowIff(time: Time)
    requires ValidTime(time)
    ensures TimeWindowPoints(time) == 10 <==> time.hour == 14 || time.hour == 15 || (time.hour == 16 && time.minute == 0)
    ensures TimeWindowPoints(time) == 0 <==> !(time.hour == 14 || time.hour == 15 || (time.hour == 16 && time.minute == 0))
  {
  }

  /** Both ends of the window count; the minutes just outside do not. */
  lemma TimeWindowEnds()
    ensures TimeWindowPoints(Time(14, 0)) == 10
    ensures TimeWindowPoints(Time(16, 0)) == 10
    ensures TimeWindowPoints(Time(13, 59)) == 0
    ensures TimeWindowPoints(Time(16, 1)) == 0
  {
  }

  // ---------------------------------------------------------------------------
  // The score
  // ---------------------------------------------------------------------------

  /** The seven rules added up, for a receipt the validator accepts. */
  function Score(doc: Receipt, cls: CharClasses): nat
    requires IsValidReceipt(doc, cls)
  {
    var items := doc.items.value;
    RetailerPoints(doc.retailer.value)
      + RoundDollarPoints(doc.total.value)
      + QuarterPoints(doc.total.value)
      + PairPoints(|items|)
      + DescriptionPoints(cls, items)
      + OddDayPoints(ParseDate(doc.purchaseDate.value).value)
      + TimeWindowPoints(ParseTime(doc.purchaseTime.value).value)
  }

  /** Every rule adds something non-negative, and rules 2, 3, 6 and 7 together
      add at most 91 points (50 + 25 + 6 + 10). */
  lemma ScoreBounds(doc: Receipt, cls: CharClasses)
    requires IsValidReceipt(doc, cls)
    ensures Score(doc, cls) >= RetailerPoints(doc.retailer.value)
    ensures Score(doc, cls) <= RetailerPoints(doc.retailer.value) + PairPoints(|doc.items.value|)
      + DescriptionPoints(cls, doc.items.value) + 91
  {
  }

  /** `calculate_points`: the running total over the seven rules, with its
      loop over the items for rule 5. */
  method CalculatePoints(doc: Receipt, cls: CharClasses) returns (points: nat)
    requires IsValidReceipt(doc, cls)
    ensures points == Score(doc, cls)
  {
    points := 0;

    var retailer := doc.retailer.value;
    var alphanum := AlnumOnly(retailer);
    points := points + |alphanum|;

    var total := doc.total.value;
    if MoneyOf(total).cents == 0 {
      points := points + 50;
    }

    var totalCents := CentsOf(total);
    if totalCents % 25 == 0 {
      points := points + 25;
    }

    var items := doc.items.value;
    points := points + (|items| / 2) * 5;

    ghost var before := points;
    assert before == RetailerPoints(retailer) + RoundDollarPoints(total) + QuarterPoints(total) + PairPoints(|items|);
    assert AllItemsValid(cls, items);
    for i := 0 to |items|
      invariant AllItemsValid(cls, items[..i])
      invariant points == before + DescriptionPoints(cls, items[..i])
    {
      DescriptionPointsStep(cls, items, i);
      var item := items[i];
      var desc := Strip(cls, item.shortDescription.value);
      if |desc| % 3 == 0 {
        points := points + PriceBonus(CentsOf(item.price.value));
      }
    }
    assert items[..|items|] == items;
    ghost var afterItems := points;

    var date := ParseDate(doc.purchaseDate.value).value;
    if date.day % 2 != 0 {
      points := points + 6;
    }

    var time := ParseTime(doc.purchaseTime.value).value;
    var minutes := time.hour * 60 + time.minute;
    if 14 * 60 <= minutes <= 16 * 60 {
      points := points + 10;
    }
    assert points == afterItems + OddDayPoints(date) + TimeWindowPoints(time);
  }

}
