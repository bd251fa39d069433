# Receipt processor, modelled in Dafny

A model of the core of a small receipt-processing web service (`app.py`). It
covers three parts:

- **`validate_receipt`** turns a JSON receipt into an ordered list of error
  strings. A presence check for five required keys comes first and stops early.
  After it come independent format checks of the retailer, the purchase date,
  the purchase time, each item and the total.
- **`calculate_points`** scores an accepted receipt by seven additive rules.
- **The in-memory `receipts` dictionary.** `process_receipt` fills it and
  `get_points` reads it.

The modules follow the program:

- `Chars`: digits and decimal numerals, and the `str.strip()` used on
  descriptions and by `float`.
- `Patterns`: the three regular expressions as predicates, and `float(...)` on
  decimal strings.
- `Clock`: `datetime.strptime` with `%Y-%m-%d` and `%H:%M`, and the calendar
  check of the `datetime` constructor.
- `Receipts`: the document as the handlers see it.
- `Validator`: the error list.
  - A specification (`Violations`, then `Messages`) states what the list is.
  - `ValidateReceipt` builds it the way the source does. It appends to
    `errors` in a loop over the required keys and in a loop over the items,
    returning where the source `continue`s.
- `Points`: the seven rules (`Score`), and `CalculatePoints` with the source's
  running total and its loop over the items.
- `Store`: the two handlers.
  - `Submit` and `Lookup` are functions over the dictionary.
  - `ReceiptStore` is a class holding the dictionary, whose methods update it
    in place.
- `Fixtures`: the three receipts of `test_app.py`, stated as lemmas about the model.

**Character classes.** The regex classes `\w` and `\s`, and the whitespace that
`strip()` removes, depend on Unicode tables. So they are a parameter
(`CharClasses`). `AsciiAgrees` fixes their ASCII part: letters, digits and `_`
are word characters, and space, tab, newline, vertical tab, form feed,
carriage return and the separators U+001C to U+001F are whitespace. Every result holds for any Unicode behaviour
beyond that.

**Pattern ends.** The `$` of the patterns also matches before one final newline.
So `"1.50\n"` is accepted as a price.

**Date and time fields.** `strptime` accepts the field grammar of CPython's
`_strptime`:

| directive | accepts |
|---|---|
| `%Y` | exactly four digits |
| `%m` | `1[0-2]`, `0[1-9]` or `[1-9]` |
| `%d` | `3[01]`, `[12]\d`, `0[1-9]`, `[1-9]` or a space then `[1-9]` |
| `%H` | `2[0-3]`, `[01]\d` or one digit |
| `%M` | `[0-5]\d` or one digit |

The `datetime` constructor then requires year ≥ 1 and a day within the month,
using Gregorian leap years.

**Money.** The code computes with floats. The model reads prices and totals as
whole cents from the `d+.dd` text the validator has checked. It assumes that
the float arithmetic below agrees with exact cent arithmetic for amounts of
ordinary size; this is not proved:

- `float(total).is_integer()`;
- `round(total * 100) % 25`;
- `math.ceil(price * 0.2)`.

**Rule values.** The rules are taken from the code:

- an odd day of the month adds 6 (app.py:109-110);
- the time window 14:00–16:00 includes both ends (app.py:114-116);
- rule 1 counts only `[a-zA-Z0-9]` (app.py:83).

**The test_get_points receipt.** test_app.py:25-42 asserts 109 points, but the
code gives 111, and `Fixtures.CornerMarketScore` proves 111. The parts are:

| rule | points |
|---|---|
| 14 letters in "M&M Corner Market" | 14 |
| 9.00 is a whole-dollar total | 50 |
| 9.00 is a multiple of 0.25 | 25 |
| two pairs of items | 10 |
| the 21-character "Pink Lemonade Britvic" at 5.40 | 2 |
| the 20th is an even day | 0 |
| 14:33 is in the window | 10 |

## Model

| member | source | states |
|---|---|---|
| `Validator.Violations` | app.py:10-76 | Definition, no contract of its own: the presence violations when a key is missing, otherwise the retailer, date, time, items and total violations concatenated. `ValidIffNoViolations`, `ViolationsInCheckOrder`, `FormatChecksIndependent` and `ItemGating` state what it means. |
| `Validator.ValidateReceipt` | app.py:10-76 | The method that appends to `errors` step by step returns exactly `Messages(Violations(doc, cls))`: the presence errors when a key is missing, otherwise the retailer, date, time, items and total errors in that order. |
| `Validator.CheckPresence` | app.py:11-15 | The loop over the five required keys appends one "Missing field: <key>" message per absent key, in key order. |
| `Validator.CheckItems` | app.py:43-64 | An empty list gives the one "at least one item" message. Otherwise the loop over `enumerate(items)` gives the concatenation of each item's own report, by ascending index. |
| `Validator.CheckItem` | app.py:47-64 | One pass of the items loop. A non-object gives one message and the pass stops; so does an object missing `shortDescription` or `price`. Otherwise the pass gives the description and price messages. |
| `Validator.CheckItemFields` | app.py:54-64 | For an item with both keys, its messages are the description check on the stripped text followed by the price check. |
| `Validator.CheckTotal` | app.py:67-74 | The total's message: the format message when the pattern fails, the not-a-number message when `float` fails, and nothing otherwise. |
| `Validator.MessagesPointwise` | app.py:15-74 | The i-th error string is the message of the i-th violation, so the list of strings mirrors the list of violations one for one. |
| `Validator.DescriptionMessages` | app.py:56-57 | The description message of one item, taken from the definitions: "Item <idx> description contains invalid characters." exactly when the stripped text fails `^[\w\s\-]+$`, and nothing otherwise. It serves `CheckItemFields`. |
| `Validator.PriceMessages` | app.py:58-64 | The price messages of one item, taken from the definitions: the two-decimals text when the pattern fails, the not-a-number text when `float` rejects the price, and nothing otherwise. It serves `CheckItemFields`. |
| `Validator.MissingMessages` | app.py:15 | The five missing-key texts as the definitions spell them, "Missing field: retailer" … "Missing field: total". It serves the fixtures. |
| `Validator.PresenceMembers` | app.py:12-17 | The presence check reports a key exactly when it is absent, and reports nothing but missing keys. It is empty exactly when all five keys are present. |
| `Validator.PresenceInFieldOrder` | app.py:12-15 | The presence errors are in the order retailer, purchaseDate, purchaseTime, items, total. |
| `Validator.PresenceShortCircuit` | app.py:16-17 | With a key missing, the result is the presence errors alone, with no format error. With all keys present, no presence error appears. |
| `Validator.RetailerOnlyExample` | app.py:12-17 | `{"retailer": "Test"}` gets exactly the four missing-field violations for purchaseDate, purchaseTime, items and total, and the four matching strings. |
| `Validator.ValidIffNoViolations` | app.py:10-76 | The validator reports nothing exactly when the receipt is valid. Valid means: all keys present; retailer matches; date and time parse; at least one item; every item is an object with both keys, a matching stripped description and a matching price; the total matches. |
| `Validator.ItemCheckEmptyIff` | app.py:47-64 | One pass of the items loop reports nothing exactly when the item is valid. |
| `Validator.ItemsCheckEmptyIff` | app.py:43-64 | The items section reports nothing exactly when there is at least one item and every item is valid. |
| `Validator.ViolationsInCheckOrder` | app.py:12-74 | The whole error list is in check order, so no error appears twice. The order is: missing keys by rank, retailer, date, time, items by ascending index with the description before the price within one item, then total. |
| `Validator.FormatChecksIndependent` | app.py:25-74 | With all keys present, each field's error appears exactly when that field fails its own check, whatever the other fields hold. This covers the retailer, date, time, no-items and total errors. |
| `Validator.ItemGating` | app.py:47-64 | The errors about item k are exactly what item k's own pass of the loop reports, independent of the other items and fields. |
| `Validator.ItemGatingCases` | app.py:48-53 | A non-object item gets exactly one "is not an object" error about it, and an object lacking a key gets exactly one "missing required fields" error; its description and price are not examined. |
| `Validator.EmptyItems` | app.py:44-45 | An empty items list gives the "at least one item" error and no per-item errors. |
| `Validator.NeverNotANumber` | app.py:58-74 | No receipt ever gets "price is not a valid number" or "Total is not a valid number": `float` accepts every pattern-matched amount. |
| `Patterns.MatchesRetailer` | app.py:20 | Definition, no contract of its own: `re.match(r'^[\w\s\-&]+$', s)`. One or more word, space, `-` or `&` characters, optionally followed by one final newline for `$`. `NewlineAbsorbed` shows that the newline case adds nothing. |
| `Patterns.MatchesDescription` | app.py:21 | Definition, no contract of its own: `re.match(r'^[\w\s\-]+$', s)`, as the retailer pattern without `&`. `NewlineAbsorbed` shows that the newline case adds nothing. |
| `Patterns.MatchesMoney` | app.py:22-23 | Definition, no contract of its own: one or more digits, a dot and exactly two digits, optionally followed by one final newline. `MoneyRoundTrip` and `MoneyExamples` state what it accepts. |
| `Patterns.ParseFloat` | app.py:61-62 | Definition, no contract of its own: `float(s)` on decimal text is strip, an optional sign, then digits with an optional dot and fraction. `FloatAcceptsMoney` proves that it accepts every money string, with the right value. |
| `Patterns.NewlineAbsorbed` | app.py:20-21 | Both character classes contain "\n", so the extra case of `$` adds nothing to the retailer and description patterns: they accept exactly the non-empty strings of class characters. |
| `Patterns.MoneyOf` | app.py:87-104 | The amount an accepted money string denotes, read from its two digit runs (`float(total)`, `float(item['price'])` on validated text). Its cent part is always below 100. `MoneyRoundTrip` and `FloatAcceptsMoney` tie it to the spelling and to `float`. |
| `Patterns.CentsOf` | app.py:92 | Definition, no contract of its own: the amount in cents, dollars × 100 + cents. This is what `round(total * 100)` gives for a two-decimal amount. `FloatAcceptsMoney` proves that it is the value of the numeral `float` reads. |
| `Patterns.MoneyRoundTrip` | app.py:22-23 | Every amount has a canonical spelling that the money pattern accepts and that reads back as the same dollars and cents. |
| `Patterns.MoneyExamples` | app.py:22-23 | "1.50" is accepted as 1 dollar 50 cents. "1.5", "abc", ".50", "1.500" and "1.50\n\n" are rejected. "1.50\n" is accepted through `$`. |
| `Patterns.FloatAcceptsMoney` | app.py:61-74 | `float` converts every string the money pattern accepts, to a two-decimal numeral whose value in cents is the one the pattern's digits spell. |
| `Chars.Strip` | app.py:56 | `str.strip()` never lengthens its argument. `StripSpec`, `StripIdempotent`, `StripEmptyIff` and `StripUnchanged` state what it keeps. |
| `Chars.StripSpec` | app.py:56 | `strip()` removes the leading and trailing whitespace and nothing else. The result neither starts nor ends with whitespace. |
| `Chars.StripIdempotent` | app.py:56 | Stripping twice is stripping once. |
| `Chars.StripEmptyIff` | app.py:56 | The stripped text is empty exactly when the description is all whitespace, so an all-blank description fails the `+` of the pattern. |
| `Chars.StripUnchanged` | app.py:56 | A string that neither starts nor ends with whitespace is left as it is. |
| `Clock.ParseDate` | app.py:31-34 | Whatever `strptime(..., "%Y-%m-%d")` accepts is a calendar date: year 1 to 9999, month 1 to 12, day within the month. |
| `Clock.ParseTime` | app.py:37-40 | Whatever `strptime(..., "%H:%M")` accepts is a time of day: hour below 24, minute below 60. |
| `Clock.DateShape` | app.py:31-34 | The converse of `DateFromFields`: an accepted string is exactly a `%Y` field, a dash, a `%m` field, a dash and a `%d` field, and the date returned is the one those fields spell. Nothing else is accepted. |
| `Clock.TimeShape` | app.py:37-40 | The converse of `TimeFromFields`: an accepted string is exactly a `%H` field, a colon and a `%M` field, and the time returned is the one they spell. Nothing else is accepted. |
| `Clock.DaysInMonth` | app.py:32 | A month has 28 to 31 days, and February has 29 exactly in Gregorian leap years. |
| `Clock.DateFromFields` | app.py:31-34 | Year, month and day fields of the accepted shapes, joined by dashes, parse to the date they spell exactly when that date is on the calendar. |
| `Clock.TimeFromFields` | app.py:37-40 | Hour and minute fields of the accepted shapes, joined by a colon, parse to the time they spell. |
| `Clock.DateRoundTrip` | app.py:31-34 | Every calendar date, written `YYYY-MM-DD`, parses back to itself. |
| `Clock.TimeRoundTrip` | app.py:37-40 | Every time of day, written `HH:MM`, parses back to itself. |
| `Clock.ImpossibleDayRefused` | app.py:31-34 | "2022-02-30" is refused. |
| `Clock.ImpossibleMonthRefused` | app.py:31-34 | "2022-13-01" is refused. |
| `Clock.YearZeroRefused` | app.py:31-34 | "0000-01-01" is refused: there is no year 0. |
| `Clock.LeapDayAccepted` | app.py:31-34 | "2024-02-29" is accepted. |
| `Clock.CenturyLeapDayRefused` | app.py:31-34 | "1900-02-29" is refused: 1900 is not a leap year. |
| `Clock.ShortFieldExample` | app.py:31-34 | One-digit month and day fields are accepted: "2022-3-5" is 5 March 2022. |
| `Clock.SpacePaddedDayExample` | app.py:31-34 | A space-padded day is accepted: "2022-03- 5" is 5 March 2022. |
| `Clock.TimeRangeExamples` | app.py:37-40 | "24:00", "12:60" and "1200" are refused. |
| `Clock.ShortHourExample` | app.py:37-40 | A one-digit hour is accepted: "9:05" is 09:05. |
| `Points.CalculatePoints` | app.py:78-118 | The running total over the seven rules, with its loop over the items, equals `Score`, the sum of the seven rule values. |
| `Points.AlnumOnly` | app.py:83 | What `re.sub(r'[^a-zA-Z0-9]', '', s)` keeps is never longer than `s`, and it holds only ASCII letters and digits. |
| `Points.RetailerPoints` | app.py:84 | Definition, no contract of its own: rule 1 is the length of what `AlnumOnly` keeps. `RetailerPointsBounds` and `AlnumOnlyCounts` state what it counts. |
| `Points.AlnumOnlyCounts` | app.py:83 | `re.sub(r'[^a-zA-Z0-9]', '', s)` keeps only ASCII letters and digits, and keeps every one of them, as many times as `s` has it. |
| `Points.AlnumOnlyUnchanged` | app.py:83 | The substitution leaves a retailer unchanged exactly when it is all ASCII letters and digits. |
| `Points.RetailerPointsBounds` | app.py:82-84 | Rule 1 adds one point per ASCII letter or digit. Any other character, such as `_`, a space, `-`, `&` or a non-ASCII letter, adds nothing. The rule never gives more points than characters. |
| `Points.RoundDollarPoints` | app.py:86-89 | Rule 2: 50 points exactly when the total in cents is a multiple of 100, which is what `float(total).is_integer()` says of a two-decimal amount, and 0 otherwise. |
| `Points.QuarterPoints` | app.py:91-94 | Definition, no contract of its own: rule 3 gives 25 when the total in cents is a multiple of 25. `QuarterIff` states it in terms of the cent digits. |
| `Points.QuarterIff` | app.py:91-94 | Rule 3 pays 25 exactly when the cent part is 00, 25, 50 or 75, whatever the dollars, and 0 otherwise. |
| `Points.WholeDollarEarnsBoth` | app.py:86-94 | A total earns 75 from rules 2 and 3 together exactly when it is a whole number of dollars. |
| `Points.PairPoints` | app.py:96-98 | Definition, no contract of its own: rule 4 gives `(count // 2) * 5`. `PairPointsPerPair` states it per pair. |
| `Points.PairPointsPerPair` | app.py:96-98 | Rule 4 pays 5 per complete pair, and an odd item out adds nothing. |
| `Points.PriceBonus` | app.py:105 | ceil(price × 0.2) in cents: the least r with 500·r ≥ cents. |
| `Points.ItemPoints` | app.py:101-105 | Definition, no contract of its own: one pass of the rule-5 loop gives `PriceBonus` of the price when the stripped description length is a multiple of 3, and nothing otherwise. |
| `Points.DescriptionPoints` | app.py:100-105 | Definition, no contract of its own: rule 5 is the sum of `ItemPoints` over the items. `DescriptionPointsAppend` and `DescriptionPointsNone` state its properties, and `CalculatePoints` proves that the loop computes it. |
| `Points.DescriptionPointsAppend` | app.py:100-105 | Rule 5 adds up item by item over any split of the items. |
| `Points.DescriptionPointsNone` | app.py:101-103 | Items whose stripped description length is not a multiple of 3 add nothing under rule 5. |
| `Points.OddDayPoints` | app.py:107-110 | Definition, no contract of its own: rule 6 gives 6 points when the day of the month is odd, and 0 otherwise. `OddDayFromText` states it on the date as written. |
| `Points.OddDayFromText` | app.py:107-110 | An accepted date earns the six points exactly when its last character is an odd digit. This holds for all the `%d` spellings, including the one-digit and space-padded days. |
| `Points.TimeWindowPoints` | app.py:112-116 | Definition, no contract of its own: rule 7 gives 10 when the minutes since midnight are between 14 × 60 and 16 × 60, both included. `TimeWindowIff` and `TimeWindowEnds` state it in hours and minutes. |
| `Points.TimeWindowIff` | app.py:112-116 | Rule 7 pays 10 exactly for the hours 14 and 15 and for 16:00, and 0 otherwise. |
| `Points.TimeWindowEnds` | app.py:115 | 14:00 and 16:00 are in the window; 13:59 and 16:01 are not. |
| `Points.Score` | app.py:78-118 | Definition, no contract of its own: the seven rule values added up, for a receipt the validator accepts. `CalculatePoints` is proved to compute it, and `ScoreBounds` bounds it. |
| `Points.ScoreBounds` | app.py:78-118 | Every rule adds a non-negative amount, so the score is at least the rule-1 count. Rules 2, 3, 6 and 7 together add at most 91 (50 + 25 + 6 + 10) on top of rules 1, 4 and 5. |
| `Store.Falsy` | app.py:123 | Definition, no contract of its own: `not data` holds for a missing body and for the empty object, and for nothing else. `FalsyRefusedBeforeValidation` and `OtherKeysValidated` state its two edges. |
| `Store.Submit` | app.py:121-137 | A body gets "Invalid JSON" exactly when it is falsy, before any validation. A receipt with errors is refused with exactly the validator's errors, which are non-empty, and the store is unchanged. Otherwise the receipt is accepted under the fresh id, stored with its score, and only that entry changes. |
| `Store.Lookup` | app.py:139-144 | An id is found exactly when it is stored, with its points; otherwise it is not found. |
| `Store.SubmitThenLookup` | app.py:133-144 | After an accepted submission the new id answers with the receipt's score, and every other id answers as before. The new id is found exactly when the receipt was accepted. |
| `Store.SubmitGrowsByOne` | app.py:133-135 | An accepted receipt adds exactly one entry, a refused one none, and no entry is ever dropped. |
| `Store.FalsyRefusedBeforeValidation` | app.py:122-124 | An unparsed body and `{}` both get "Invalid JSON", even though validating `{}` would give five errors. |
| `Store.OtherKeysValidated` | app.py:122-131 | A non-empty object holding none of the five keys is not falsy: it is validated and refused with the five missing-field errors. |
| `Store.ReceiptStore.ProcessReceipt` | app.py:121-137 | The handler calls the validator and the scorer as methods and updates the dictionary in place. Its response and the new dictionary are those of `Submit` on the old dictionary. |
| `Store.ReceiptStore.GetPoints` | app.py:140-144 | The handler's response is `Lookup` on the current dictionary. |
| `Store.SubmitAndRetrieve` | app.py:133-144 | The response and the store afterwards are those of `Submit` on the store before. Asking for the id the submission returned then finds the receipt's score when it was accepted, and nothing otherwise. |
| `Fixtures.CornerMarketValid` | test_app.py:25-37 | The test_get_points receipt is accepted. |
| `Fixtures.CornerMarketScore` | test_app.py:25-42 | The test_get_points receipt scores 111 by the code's rules (14 + 50 + 25 + 10 + 2 + 0 + 10). |
| `Fixtures.CornerMarketStored` | test_app.py:38-42 | Submitted to an empty store, the receipt is accepted under the given id, and that id then answers with 111 points. |
| `Fixtures.TargetValid` | test_app.py:10-23 | The test_process_receipt_valid receipt is accepted (status 200 with an id). |
| `Fixtures.TargetScore` | test_app.py:10-20 | That receipt scores 18: 6 letters, 5 for one pair, 1 for "Dasani" at 1.40, and 6 for the odd day. |
| `Fixtures.RetailerOnlyRefused` | test_app.py:44-47 | `{"retailer": "Test"}` is refused with status 400 and its four missing-field errors, and nothing is stored. |

## Left out

- **Flask.** Routing, `request.get_json`, `jsonify` and `app.run` are not modelled (app.py:5-7, 146-147). Responses are the outcome datatypes of `Store`, with the status codes and messages as functions (`SubmitStatus`, `SubmitMessage`, …).
- **Bodies that are not objects.**
  - `Unparsed` stands for `request.get_json()` returning `None`. Flask's own answer to a body that is not JSON at all is not modelled.
  - Falsy bodies (`0`, `false`, `""`, `[]`, `null`) get "Invalid JSON" at app.py:123-124, as `Unparsed` does.
  - A non-empty JSON array or string passes `not data`. app.py:13-15 then tests `field in data` on it: element membership for an array, substring search for a string.
  - If some required key is not found there, the answer has the missing-field errors for the keys not found. That is the answer the model gives a `Json` receipt holding exactly the keys found (for no key found, `Receipt(None, None, None, None, None, true)`).
  - If all five are found, `data.get` raises AttributeError at app.py:26.
  - A number or `true` as the body raises TypeError at app.py:14.
  - These bodies are not inputs of the model.
- **Items.** An item is either an object, with its two keys optional, or `NotObject` for every other JSON value. Other keys inside an item are not modelled, because the code never reads them.
- **Fresh ids.** `uuid.uuid4()` is not modelled (app.py:134). The fresh id is a parameter that must not already be in the store.
- **Concurrency.** Access to the shared dictionary is not synchronised in the source, and the model is sequential.
- **Fields of other JSON types.** The model types the retailer, date, time, total, description and price as strings and the items as a sequence. Bodies with other types are not inputs of the model. In the source:
  - a retailer or total that is not a string (a number, a list, `null`) raises TypeError in `re.match` (app.py:26-27, 67-68);
  - a date or time that is not a string raises TypeError in `strptime` (app.py:32, 38);
  - a non-string description raises AttributeError at `.strip()` (app.py:56);
  - a non-string price raises TypeError in `re.match` at app.py:58;
  - `items` without a length (a number, `null`) raises TypeError at app.py:44;
  - `items` given as a non-empty string or object is walked element by element or key by key (app.py:47-50), so each character or key gets "Item <idx> is not an object." The model gives the same answer to a sequence of `NotObject` items of that length.
- **Unicode.** `\w`, `\s` and `strip()` beyond ASCII are a parameter, not computed. `\d` in the patterns and in `strptime` is modelled as the ASCII digits only; Python also accepts other Unicode decimal digits there.
- **`float` syntax.** Exponents, `inf`, `nan` and digit-group underscores are not modelled. They never occur in a string the money pattern has accepted, which is the only place the results use them.
- **IEEE arithmetic.** The float steps of rules 2, 3 and 5 are modelled as exact cent arithmetic on the validated text (app.py:87-105). Agreement with the float code is assumed for amounts of ordinary size, not proved.
- Points.CalculatePoints: requires a valid receipt, and `Points.Score` exists only for valid receipts. The source calls `calculate_points` only after validation passed (app.py:126-133), though the function itself checks nothing. On other receipts it returns a value for some, such as a retailer "A!b" with every other field valid, and raises for others, such as a date `strptime` rejects. The model does not define the score of a receipt the validator refuses, because it reads the cents and the date through the validated formats.
- Fixtures.CornerMarketScore: states the score under the premise that the receipt is valid. `Fixtures.CornerMarketValid` proves that premise, and `Fixtures.CornerMarketStored` uses both.
- Fixtures.TargetScore: states the score under the premise that the receipt is valid. `Fixtures.TargetValid` proves that premise.
