/** The receipts of the repository's tests (test_app.py:10-47), stated as
    lemmas about the model: which are accepted, what they score, and what the
    store answers. */
module Fixtures {
  import opened Wrappers
  import opened Chars
  import opened Patterns
  import opened Clock
  import opened Receipts
  import opened Validator
  import opened Points
  import opened Store

  // ---------------------------------------------------------------------------
  // Literal text in the character classes
  // ---------------------------------------------------------------------------

  /** Every character is an ASCII word character, whitespace, `-` or (when
      `amp` holds) `&`. */
  predicate AsciiText(s: string, amp: bool) {
    forall i :: 0 <= i < |s| ==> IsAsciiWord(s[i]) || IsAsciiSpace(s[i]) || s[i] == '-' || (amp && s[i] == '&')
  }

  lemma AsciiTextChars(cls: CharClasses, s: string, amp: bool)
    requires AsciiAgrees(cls)
    requires AsciiText(s, amp)
    ensures forall i :: 0 <= i < |s| ==> (if amp then RetailerChar(cls, s[i]) else DescriptionChar(cls, s[i]))
  {
    forall i | 0 <= i < |s| ensures if amp then RetailerChar(cls, s[i]) else DescriptionChar(cls, s[i]) {
      var c := s[i];
      if IsAsciiWord(c) {
        assert cls.word(c);
      } else if IsAsciiSpace(c) {
        assert cls.space(c);
      }
    }
  }

  /** A description of such characters that neither starts nor ends with
      whitespace is kept whole by `strip()` and passes the description check. */
  lemma DescriptionAccepted(cls: CharClasses, s: string)
    requires AsciiAgrees(cls)
    requires |s| >= 1 && AsciiText(s, false)
    requires s[0] < '\U{80}' && !IsAsciiSpace(s[0]) && s[|s| - 1] < '\U{80}' && !IsAsciiSpace(s[|s| - 1])
    ensures Strip(cls, s) == s
    ensures MatchesDescription(cls, Strip(cls, s))
  {
    StripUnchanged(cls, s);
    AsciiTextChars(cls, s, false);
  }

  lemma RetailerAccepted(cls: CharClasses, s: string)
    requires AsciiAgrees(cls)
    requires |s| >= 1 && AsciiText(s, true)
    ensures MatchesRetailer(cls, s)
  {
    AsciiTextChars(cls, s, true);
  }

  /** A price `d.dd`, read as its dollars and cents. */
  lemma SmallMoney(s: string, dollars: nat, cents: nat)
    requires |s| == 4 && IsAsciiDigit(s[0]) && s[1] == '.' && IsAsciiDigit(s[2]) && IsAsciiDigit(s[3])
    requires dollars == DigitValue(s[0]) && cents == DigitValue(s[2]) * 10 + DigitValue(s[3])
    ensures MatchesMoney(s)
    ensures MoneyOf(s) == Money(dollars, cents)
    ensures CentsOf(s) == dollars * 100 + cents
  {
    assert s[..1] == [s[0]];
    assert AllDigits(s[..1]);
    assert MoneyBody(s);
    assert s[..1][..0] == [];
    TwoDigitsValue(s[2..]);
  }

  // ---------------------------------------------------------------------------
  // test_get_points (test_app.py:25-42)
  // ---------------------------------------------------------------------------

  const Gatorade: Item := Object(Some("Gatorade"), Some("2.25"))
  const Lemonade: Item := Object(Some("Pink Lemonade Britvic"), Some("5.40"))

  const CornerMarket: Receipt := Receipt(
    Some("M&M Corner Market"), Some("2022-03-20"), Some("14:33"),
    Some([Gatorade, Gatorade, Gatorade, Lemonade]), Some("9.00"), false)

  /** An item whose description passes untouched and whose price is `d.dd`:
      valid, and scoring the price bonus exactly when the description's length
      is a multiple of 3. */
  lemma SmallItem(cls: CharClasses, desc: string, price: string, dollars: nat, cents: nat)
    requires AsciiAgrees(cls)
    requires |desc| >= 1 && AsciiText(desc, false)
    requires desc[0] < '\U{80}' && !IsAsciiSpace(desc[0]) && desc[|desc| - 1] < '\U{80}' && !IsAsciiSpace(desc[|desc| - 1])
    requires |price| == 4 && IsAsciiDigit(price[0]) && price[1] == '.' && IsAsciiDigit(price[2]) && IsAsciiDigit(price[3])
    requires dollars == DigitValue(price[0]) && cents == DigitValue(price[2]) * 10 + DigitValue(price[3])
    ensures ItemValid(cls, Object(Some(desc), Some(price)))
    ensures ItemPoints(cls, Object(Some(desc), Some(price))) == if |desc| % 3 == 0 then PriceBonus(dollars * 100 + cents) else 0
  {
    DescriptionAccepted(cls, desc);
    SmallMoney(price, dollars, cents);
  }

  lemma GatoradeItem(cls: CharClasses)
    requires AsciiAgrees(cls)
    ensures ItemValid(cls, Gatorade) && ItemPoints(cls, Gatorade) == 0
  {
    SmallItem(cls, "Gatorade", "2.25", 2, 25);
  }

  /** 21 characters, and ceil(5.40 * 0.2) = 2. */
  lemma LemonadeItem(cls: CharClasses)
    requires AsciiAgrees(cls)
    ensures ItemValid(cls, Lemonade) && ItemPoints(cls, Lemonade) == 2
  {
    SmallItem(cls, "Pink Lemonade Britvic", "5.40", 5, 40);
  }

  /** A retailer of letters and digits only scores one point per character. */
  lemma AllAlnumPoints(s: string)
    requires forall i :: 0 <= i < |s| ==> IsAsciiAlnum(s[i])
    ensures RetailerPoints(s) == |s|
  {
    AlnumOnlyUnchanged(s);
  }

  /** "M&M Corner Market" has 14 ASCII letters. */
  lemma CornerMarketLetters()
    ensures RetailerPoints("M&M Corner Market") == 14
  {
    assert RetailerPoints("M") == 1 by { AllAlnumPoints("M"); }
    assert RetailerPoints("M Corner Market") == 13 by { CornerMarketWords(); }
    RetailerPointsBounds("M", '&', "M Corner Market");
    assert "M&M Corner Market" == "M" + ['&'] + "M Corner Market";
  }

  lemma CornerMarketWords()
    ensures RetailerPoints("M Corner Market") == 13
  {
    assert RetailerPoints("M") == 1 by { AllAlnumPoints("M"); }
    assert RetailerPoints("Corner Market") == 12 by { TwoWords(); }
    RetailerPointsBounds("M", ' ', "Corner Market");
    assert "M Corner Market" == "M" + [' '] + "Corner Market";
  }

  lemma TwoWords()
    ensures RetailerPoints("Corner Market") == 12
  {
    assert RetailerPoints("Corner") == 6 by { AllAlnumPoints("Corner"); }
    assert RetailerPoints("Market") == 6 by { AllAlnumPoints("Market"); }
    RetailerPointsBounds("Corner", ' ', "Market");
    assert "Corner Market" == "Corner" + [' '] + "Market";
  }

  lemma CornerMarketItemsValid(cls: CharClasses)
    requires AsciiAgrees(cls)
    ensures forall i :: 0 <= i < |CornerMarket.items.value| ==> ItemValid(cls, CornerMarket.items.value[i])
  {
    GatoradeItem(cls);
    LemonadeItem(cls);
  }

  /** The receipt is accepted. */
  lemma CornerMarketValid(cls: CharClasses)
    requires AsciiAgrees(cls)
    ensures IsValidReceipt(CornerMarket, cls)
  {
    CornerMarketItemsValid(cls);
    assert MatchesRetailer(cls, "M&M Corner Market") by { RetailerAccepted(cls, "M&M Corner Market"); }
    assert MatchesMoney("9.00") by { SmallMoney("9.00", 9, 0); }
    DateExample();
    TimeExample();
  }

  /** Accepted (`CornerMarketValid`), it scores 111 by the rules as the code states them: 14 letters, 50 and
      25 for the whole-dollar total, 10 for two pairs of items, 2 for the
      21-character description at 5.40, nothing for the even day, 10 for 14:33.
      The test asserts 109. */
  lemma CornerMarketScore(cls: CharClasses)
    requires AsciiAgrees(cls)
    ensures IsValidReceipt(CornerMarket, cls) ==> Score(CornerMarket, cls) == 111
  {
    var doc := CornerMarket;
    assert RetailerPoints(doc.retailer.value) == 14 by { CornerMarketLetters(); }
    CornerMarketTotal();
    assert PairPoints(|doc.items.value|) == 10;
    CornerMarketBonus(cls);
    CornerMarketMoment();
  }

  /** 9.00 is a whole number of dollars and of quarters: 50 and 25. */
  lemma CornerMarketTotal()
    ensures MatchesMoney(CornerMarket.total.value)
    ensures RoundDollarPoints(CornerMarket.total.value) == 50 && QuarterPoints(CornerMarket.total.value) == 25
  {
    SmallMoney("9.00", 9, 0);
  }

  /** 2022-03-20 is an even day; 14:33 is inside the window. */
  lemma CornerMarketMoment()
    ensures ParseDate(CornerMarket.purchaseDate.value).Some? && ParseTime(CornerMarket.purchaseTime.value).Some?
    ensures OddDayPoints(ParseDate(CornerMarket.purchaseDate.value).value) == 0
    ensures TimeWindowPoints(ParseTime(CornerMarket.purchaseTime.value).value) == 10
  {
    DateExample();
    TimeExample();
  }

  /** Rule 5 on the four items: only the lemonade scores, 2 points. */
  lemma CornerMarketBonus(cls: CharClasses)
    requires AsciiAgrees(cls)
    ensures AllItemsValid(cls, CornerMarket.items.value)
    ensures DescriptionPoints(cls, CornerMarket.items.value) == 2
  {
    GatoradeItem(cls);
    LemonadeItem(cls);
    ThreeAndOne(cls, Gatorade, Lemonade);
  }

  /** Rule 5 adds up item by item, here on three equal items and one more. */
  lemma ThreeAndOne(cls: CharClasses, a: Item, b: Item)
    requires ItemValid(cls, a) && ItemValid(cls, b)
    ensures AllItemsValid(cls, [a, a, a, b])
    ensures DescriptionPoints(cls, [a, a, a, b]) == 3 * ItemPoints(cls, a) + ItemPoints(cls, b)
  {
    var x, y := [a], [b];
    assert AllItemsValid(cls, x) && DescriptionPoints(cls, x) == ItemPoints(cls, a) by { assert x[..0] == []; }
    assert AllItemsValid(cls, y) && DescriptionPoints(cls, y) == ItemPoints(cls, b) by { assert y[..0] == []; }
    DescriptionPointsAppend(cls, x, x);
    DescriptionPointsAppend(cls, x + x, x);
    DescriptionPointsAppend(cls, x + x + x, y);
    assert [a, a, a, b] == x + x + x + y;
  }

  // ---------------------------------------------------------------------------
  // test_process_receipt_valid (test_app.py:10-23)
  // ---------------------------------------------------------------------------

  const Pepsi: Item := Object(Some("Pepsi - 12-oz"), Some("1.25"))
  const Dasani: Item := Object(Some("Dasani"), Some("1.40"))

  const TargetReceipt: Receipt := Receipt(
    Some("Target"), Some("2022-01-01"), Some("13:01"),
    Some([Pepsi, Dasani]), Some("2.65"), false)

  lemma TargetDate()
    ensures ParseDate("2022-01-01") == Some(Date(2022, 1, 1))
  {
    assert DigitsValue("2022") == 2022 by { FourDigitsValue("2022"); }
    assert DigitsValue("01") == 1 by { TwoDigitsValue("01"); }
    DateLiteral("2022-01-01", "2022", "01", "01", Date(2022, 1, 1));
  }

  lemma TargetTime()
    ensures ParseTime("13:01") == Some(Time(13, 1))
  {
    assert DigitsValue("13") == 13 by { TwoDigitsValue("13"); }
    assert DigitsValue("01") == 1 by { TwoDigitsValue("01"); }
    TimeFromFields("13", "01");
    assert "13:01" == "13" + ":" + "01";
  }

  /** 13 characters: no bonus. */
  lemma PepsiItem(cls: CharClasses)
    requires AsciiAgrees(cls)
    ensures ItemValid(cls, Pepsi) && ItemPoints(cls, Pepsi) == 0
  {
    SmallItem(cls, "Pepsi - 12-oz", "1.25", 1, 25);
  }

  /** 6 characters, and ceil(1.40 * 0.2) = 1. */
  lemma DasaniItem(cls: CharClasses)
    requires AsciiAgrees(cls)
    ensures ItemValid(cls, Dasani) && ItemPoints(cls, Dasani) == 1
  {
    SmallItem(cls, "Dasani", "1.40", 1, 40);
  }

  /** Accepted (`TargetValid`), the receipt scores 18: 6 letters, 5 for one pair of
      items, 1 for "Dasani" at 1.40, 6 for the odd day; 2.65 and 13:01 add nothing. */
  lemma TargetScore(cls: CharClasses)
    requires AsciiAgrees(cls)
    ensures IsValidReceipt(TargetReceipt, cls) ==> Score(TargetReceipt, cls) == 18
  {
    var doc := TargetReceipt;
    assert RetailerPoints(doc.retailer.value) == 6 by { AllAlnumPoints("Target"); }
    TargetTotal();
    assert PairPoints(|doc.items.value|) == 5;
    TargetBonus(cls);
    TargetMoment();
    TargetValid(cls);
  }

  /** 2.65 has cents and is not a multiple of 0.25: nothing. */
  lemma TargetTotal()
    ensures MatchesMoney(TargetReceipt.total.value)
    ensures RoundDollarPoints(TargetReceipt.total.value) == 0 && QuarterPoints(TargetReceipt.total.value) == 0
  {
    SmallMoney("2.65", 2, 65);
  }

  /** 2022-01-01 is an odd day; 13:01 is before the window. */
  lemma TargetMoment()
    ensures ParseDate(TargetReceipt.purchaseDate.value).Some? && ParseTime(TargetReceipt.purchaseTime.value).Some?
    ensures OddDayPoints(ParseDate(TargetReceipt.purchaseDate.value).value) == 6
    ensures TimeWindowPoints(ParseTime(TargetReceipt.purchaseTime.value).value) == 0
  {
    TargetDate();
    TargetTime();
  }

  lemma TargetItemsValid(cls: CharClasses)
    requires AsciiAgrees(cls)
    ensures forall i :: 0 <= i < |TargetReceipt.items.value| ==> ItemValid(cls, TargetReceipt.items.value[i])
  {
    PepsiItem(cls);
    DasaniItem(cls);
  }

  lemma TargetValid(cls: CharClasses)
    requires AsciiAgrees(cls)
    ensures IsValidReceipt(TargetReceipt, cls)
  {
    TargetItemsValid(cls);
    assert MatchesRetailer(cls, "Target") by { RetailerAccepted(cls, "Target"); }
    assert MatchesMoney("2.65") by { SmallMoney("2.65", 2, 65); }
    TargetDate();
    TargetTime();
  }

  /** Rule 5 on the two items: "Pepsi - 12-oz" has 13 characters, "Dasani" 6
      at 1.40 earns ceil(0.28) = 1. */
  lemma TargetBonus(cls: CharClasses)
    requires AsciiAgrees(cls)
    ensures AllItemsValid(cls, TargetReceipt.items.value)
    ensures DescriptionPoints(cls, TargetReceipt.items.value) == 1
  {
    PepsiItem(cls);
    DasaniItem(cls);
    TwoItems(cls, Pepsi, Dasani);
  }

  /** Rule 5 on two items. */
  lemma TwoItems(cls: CharClasses, a: Item, b: Item)
    requires ItemValid(cls, a) && ItemValid(cls, b)
    ensures AllItemsValid(cls, [a, b])
    ensures DescriptionPoints(cls, [a, b]) == ItemPoints(cls, a) + ItemPoints(cls, b)
  {
    var x, y := [a], [b];
    assert AllItemsValid(cls, x) && DescriptionPoints(cls, x) == ItemPoints(cls, a) by { assert x[..0] == []; }
    assert AllItemsValid(cls, y) && DescriptionPoints(cls, y) == ItemPoints(cls, b) by { assert y[..0] == []; }
    DescriptionPointsAppend(cls, x, y);
    assert [a, b] == x + y;
  }

  // ---------------------------------------------------------------------------
  // The store on the test receipts
  // ---------------------------------------------------------------------------

  /** Submitting the first test receipt to an empty store accepts it, and its
      id then answers with 111 points (status 200 both times). */
  lemma CornerMarketStored(cls: CharClasses, id: string)
    requires AsciiAgrees(cls)
    ensures Submit(map[], Json(CornerMarket), cls, id).outcome == Accepted(id)
    ensures Lookup(Submit(map[], Json(CornerMarket), cls, id).receipts, id) == Found(111)
  {
    CornerMarketValid(cls);
    CornerMarketScore(cls);
  }

  /** test_invalid_receipt (test_app.py:44-47): `{"retailer": "Test"}` is
      refused with status 400 and its four missing-field errors, and nothing is stored. */
  lemma RetailerOnlyRefused(receipts: map<string, nat>, cls: CharClasses, id: string)
    requires AsciiAgrees(cls)
    ensures var s := Submit(receipts, Json(Receipt(Some("Test"), None, None, None, None, false)), cls, id);
      && SubmitStatus(s.outcome) == 400
      && s.outcome == Rejected(["Missing field: purchaseDate", "Missing field: purchaseTime", "Missing field: items", "Missing field: total"])
      && s.receipts == receipts
  {
    RetailerOnlyExample(cls);
  }

}
