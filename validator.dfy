/** `validate_receipt` (app.py:10-76): the ordered list of error messages for a
    receipt document, empty exactly when the receipt may be scored.

    The list is specified by `Violations`, a list of structured violations, and
    `Messages`, which spells each of them as the source does; the method
    `ValidateReceipt` builds the message list with the source's loops and is
    proved to produce exactly `Messages(Violations(doc, cls))`. */
module Validator {
  import opened Wrappers
  import opened Chars
  import opened Patterns
  import opened Clock
  import opened Receipts

  // ---------------------------------------------------------------------------
  // Fields and violations
  // ---------------------------------------------------------------------------

  /** The five keys the validator asks for. */
  datatype Field = Retailer | PurchaseDate | PurchaseTime | Items | Total

  function FieldName(f: Field): string {
    match f
    case Retailer => "retailer"
    case PurchaseDate => "purchaseDate"
    case PurchaseTime => "purchaseTime"
    case Items => "items"
    case Total => "total"
  }

  /** The order in which the keys are looked up (app.py:12). */
  const RequiredFields: seq<Field> := [Retailer, PurchaseDate, PurchaseTime, Items, Total]

  /** The position of a key in `RequiredFields`. */
  function FieldRank(f: Field): (n: nat)
    ensures n < |RequiredFields| && RequiredFields[n] == f
  {
    match f
    case Retailer => 0
    case PurchaseDate => 1
    case PurchaseTime => 2
    case Items => 3
    case Total => 4
  }

  predicate HasField(doc: Receipt, f: Field) {
    match f
    case Retailer => doc.retailer.Some?
    case PurchaseDate => doc.purchaseDate.Some?
    case PurchaseTime => doc.purchaseTime.Some?
    case Items => doc.items.Some?
    case Total => doc.total.Some?
  }

  predicate AllPresent(doc: Receipt) {
    doc.retailer.Some? && doc.purchaseDate.Some? && doc.purchaseTime.Some? && doc.items.Some? && doc.total.Some?
  }

  /** One error the validator reports; item violations carry the item's index. */
  datatype Violation =
    | MissingField(field: Field)
    | BadRetailer
    | BadDate
    | BadTime
    | NoItems
    | ItemNotObject(idx: nat)
    | ItemMissingFields(idx: nat)
    | ItemBadDescription(idx: nat)
    | ItemBadPrice(idx: nat)
    | ItemPriceNotNumber(idx: nat)
    | BadTotal
    | TotalNotNumber

  // The texts of the messages (app.py:15, 28, 34, 40, 45, 50, 53, 57, 60, 64, 70, 74).
  const MissingPrefix: string := "Missing field: "
  const BadRetailerText: string := "Retailer contains invalid characters. Only alphanumerics, spaces, hyphens, and & are allowed."
  const BadDateText: string := "Invalid purchaseDate. Expected format: YYYY-MM-DD."
  const BadTimeText: string := "Invalid purchaseTime. Expected format: HH:MM."
  const NoItemsText: string := "Receipt must contain at least one item."
  const NotObjectText: string := " is not an object."
  const MissingFieldsText: string := " is missing required fields."
  const BadDescriptionText: string := " description contains invalid characters."
  const BadPriceText: string := " price must be a string with exactly two decimal places (e.g., 12.00)."
  const PriceNotNumberText: string := " price is not a valid number."
  const BadTotalText: string := "Total must be a string with exactly two decimal places (e.g., 35.35)."
  const TotalNotNumberText: string := "Total is not a valid number."

  /** The f-string `f"Item {idx}..."` of the items loop. */
  function ItemMessage(idx: nat, text: string): string {
    "Item " + NatToString(idx) + text
  }

  /** The message the source appends for each violation. */
  function Message(v: Violation): string {
    match v
    case MissingField(f) => MissingPrefix + FieldName(f)
    case BadRetailer => BadRetailerText
    case BadDate => BadDateText
    case BadTime => BadTimeText
    case NoItems => NoItemsText
    case ItemNotObject(i) => ItemMessage(i, NotObjectText)
    case ItemMissingFields(i) => ItemMessage(i, MissingFieldsText)
    case ItemBadDescription(i) => ItemMessage(i, BadDescriptionText)
    case ItemBadPrice(i) => ItemMessage(i, BadPriceText)
    case ItemPriceNotNumber(i) => ItemMessage(i, PriceNotNumberText)
    case BadTotal => BadTotalText
    case TotalNotNumber => TotalNotNumberText
  }

  /** The messages of a list of violations, one for one and in the same order. */
  function Messages(vs: seq<Violation>): (ms: seq<string>)
    ensures |ms| == |vs|
  {
    if vs == [] then [] else Messages(vs[..|vs| - 1]) + [Message(vs[|vs| - 1])]
  }

  /** Message `i` is the message of violation `i`. */
  lemma {:induction false} MessagesPointwise(vs: seq<Violation>)
    ensures forall i :: 0 <= i < |vs| ==> Messages(vs)[i] == Message(vs[i])
  {
    if vs != [] {
      var init := vs[..|vs| - 1];
      MessagesPointwise(init);
      forall i | 0 <= i < |vs| - 1 ensures Messages(vs)[i] == Message(vs[i]) {
        assert Messages(vs)[i] == Messages(init)[i];
        assert init[i] == vs[i];
      }
    }
  }

  lemma {:induction false} MessagesAppend(a: seq<Violation>, b: seq<Violation>)
    ensures Messages(a + b) == Messages(a) + Messages(b)
  {
    if b == [] {
      assert a + b == a;
    } else {
      assert (a + b)[..|a + b| - 1] == a + b[..|b| - 1];
      MessagesAppend(a, b[..|b| - 1]);
    }
  }

  // ---------------------------------------------------------------------------
  // The checks, in the order the source runs them
  // ---------------------------------------------------------------------------

  /** One violation for `f` when the document lacks it (app.py:14-15). */
  function MissingIf(doc: Receipt, f: Field): seq<Violation> {
    if HasField(doc, f) then [] else [MissingField(f)]
  }

  /** The missing-key violations for the first `k` required keys, in their order. */
  function MissingUpTo(doc: Receipt, k: nat): seq<Violation>
    requires k <= |RequiredFields|
  {
    if k == 0 then [] else MissingUpTo(doc, k - 1) + MissingIf(doc, RequiredFields[k - 1])
  }

  /** The presence check (app.py:12-17). */
  function Presence(doc: Receipt): seq<Violation> {
    MissingUpTo(doc, |RequiredFields|)
  }

  /** Among the first `k` keys, exactly the absent ones are reported. */
  lemma {:induction false} MissingUpToMembers(doc: Receipt, k: nat)
    requires k <= |RequiredFields|
    ensures forall v :: v in MissingUpTo(doc, k) ==> v.MissingField? && FieldRank(v.field) < k && !HasField(doc, v.field)
    ensures forall f :: FieldRank(f) < k && !HasField(doc, f) ==> MissingField(f) in MissingUpTo(doc, k)
  {
    if k > 0 {
      MissingUpToMembers(doc, k - 1);
    }
  }

  /** The presence check reports exactly the absent keys, and so finds nothing
      exactly when all five keys are there. */
  lemma PresenceMembers(doc: Receipt)
    ensures forall f :: MissingField(f) in Presence(doc) <==> !HasField(doc, f)
    ensures forall v :: v in Presence(doc) ==> v.MissingField?
    ensures Presence(doc) == [] <==> AllPresent(doc)
  {
    MissingUpToMembers(doc, |RequiredFields|);
    if !AllPresent(doc) {
      var f :=
        if doc.retailer.None? then Retailer
        else if doc.purchaseDate.None? then PurchaseDate
        else if doc.purchaseTime.None? then PurchaseTime
        else if doc.items.None? then Items
        else Total;
      assert MissingField(f) in Presence(doc);
    } else {
      assert MissingUpTo(doc, 1) == [];
      assert MissingUpTo(doc, 2) == [];
      assert MissingUpTo(doc, 3) == [];
      assert MissingUpTo(doc, 4) == [];
    }
  }

  function RetailerCheck(cls: CharClasses, retailer: string): seq<Violation> {
    if MatchesRetailer(cls, retailer) then [] else [BadRetailer]
  }

  function DateCheck(date: string): seq<Violation> {
    if ParseDate(date).Some? then [] else [BadDate]
  }

  function TimeCheck(time: string): seq<Violation> {
    if ParseTime(time).Some? then [] else [BadTime]
  }

  /** The description check of one item, on the stripped text (app.py:56-57). */
  function DescriptionCheck(cls: CharClasses, desc: string, idx: nat): seq<Violation> {
    if MatchesDescription(cls, Strip(cls, desc)) then [] else [ItemBadDescription(idx)]
  }

  /** The price check of one item: the pattern, then the conversion (app.py:58-64). */
  function PriceCheck(cls: CharClasses, price: string, idx: nat): seq<Violation> {
    if !MatchesMoney(price) then [ItemBadPrice(idx)]
    else if ParseFloat(cls, price).None? then [ItemPriceNotNumber(idx)]
    else []
  }

  /** One pass of the items loop (app.py:48-64): a non-object item and an item
      without both keys get one violation and nothing else. */
  function ItemCheck(cls: CharClasses, item: Item, idx: nat): seq<Violation> {
    match item
    case NotObject => [ItemNotObject(idx)]
    case Object(desc, price) =>
      if desc.None? || price.None? then [ItemMissingFields(idx)]
      else DescriptionCheck(cls, desc.value, idx) + PriceCheck(cls, price.value, idx)
  }

  /** What each pass of the items loop reports, item by item. */
  function ItemReports(cls: CharClasses, items: seq<Item>): (rs: seq<seq<Violation>>)
    ensures |rs| == |items|
    ensures forall i :: 0 <= i < |items| ==> rs[i] == ItemCheck(cls, items[i], i)
  {
    seq(|items|, i requires 0 <= i < |items| => ItemCheck(cls, items[i], i))
  }

  /** The reports one after another. */
  function Concat(rs: seq<seq<Violation>>): seq<Violation> {
    if rs == [] then [] else Concat(rs[..|rs| - 1]) + rs[|rs| - 1]
  }

  /** The items check (app.py:43-64). */
  function ItemsCheck(cls: CharClasses, items: seq<Item>): seq<Violation> {
    if |items| < 1 then [NoItems] else Concat(ItemReports(cls, items))
  }

  /** The total check: the pattern, then the conversion (app.py:67-74). */
  function TotalCheck(cls: CharClasses, total: string): seq<Violation> {
    if !MatchesMoney(total) then [BadTotal]
    else if ParseFloat(cls, total).None? then [TotalNotNumber]
    else []
  }

  /** The format checks of a document that has all five keys (app.py:25-74). */
  function FormatViolations(doc: Receipt, cls: CharClasses): seq<Violation>
    requires AllPresent(doc)
  {
    RetailerCheck(cls, doc.retailer.value)
      + DateCheck(doc.purchaseDate.value)
      + TimeCheck(doc.purchaseTime.value)
      + ItemsCheck(cls, doc.items.value)
      + TotalCheck(cls, doc.total.value)
  }

  /** Everything the validator reports about `doc`, as violations. */
  function Violations(doc: Receipt, cls: CharClasses): seq<Violation> {
    if !AllPresent(doc) then Presence(doc) else FormatViolations(doc, cls)
  }

  // ---------------------------------------------------------------------------
  // The validator
  // ---------------------------------------------------------------------------

  /** `validate_receipt`: the presence loop, which returns early, then the
      format checks one after another. */
  method ValidateReceipt(doc: Receipt, cls: CharClasses) returns (errors: seq<string>)
    ensures errors == Messages(Violations(doc, cls))
  {
    errors := CheckPresence(doc);
    PresenceMembers(doc);
    if errors != [] {
      return;
    }
    var retailer := doc.retailer.value;
    var date := doc.purchaseDate.value;
    var time := doc.purchaseTime.value;
    var total := doc.total.value;

    if !MatchesRetailer(cls, retailer) {
      errors := errors + [BadRetailerText];
    }
    assert errors == Messages(RetailerCheck(cls, retailer)) by { MessagesSingle(BadRetailer); }
    ghost var sofar := errors;

    if ParseDate(date).None? {
      errors := errors + [BadDateText];
    }
    assert errors == sofar + Messages(DateCheck(date)) by { MessagesSingle(BadDate); }
    sofar := errors;

    if ParseTime(time).None? {
      errors := errors + [BadTimeText];
    }
    assert errors == sofar + Messages(TimeCheck(time)) by { MessagesSingle(BadTime); }
    sofar := errors;

    var itemErrors := CheckItems(doc.items.value, cls);
    errors := errors + itemErrors;

    var totalErrors := CheckTotal(total, cls);
    errors := errors + totalErrors;
    MessagesOfFormat(doc, cls);
  }

  /** The total check (app.py:67-74). */
  method CheckTotal(total: string, cls: CharClasses) returns (errors: seq<string>)
    ensures errors == Messages(TotalCheck(cls, total))
  {
    if !MatchesMoney(total) {
      errors := [BadTotalText];
      MessagesSingle(BadTotal);
    } else if ParseFloat(cls, total).None? {
      errors := [TotalNotNumberText];
      MessagesSingle(TotalNotNumber);
    } else {
      errors := [];
    }
  }

  lemma MessagesSingle(v: Violation)
    ensures Messages([v]) == [Message(v)]
  {
  }

  /** The messages of the format checks, check by check. */
  lemma MessagesOfFormat(doc: Receipt, cls: CharClasses)
    requires AllPresent(doc)
    ensures Messages(Violations(doc, cls)) ==
      Messages(RetailerCheck(cls, doc.retailer.value))
      + Messages(DateCheck(doc.purchaseDate.value))
      + Messages(TimeCheck(doc.purchaseTime.value))
      + Messages(ItemsCheck(cls, doc.items.value))
      + Messages(TotalCheck(cls, doc.total.value))
  {
    var r := RetailerCheck(cls, doc.retailer.value);
    var d := DateCheck(doc.purchaseDate.value);
    var t := TimeCheck(doc.purchaseTime.value);
    var its := ItemsCheck(cls, doc.items.value);
    var tot := TotalCheck(cls, doc.total.value);
    MessagesAppend(r + d + t + its, tot);
    MessagesAppend(r + d + t, its);
    MessagesAppend(r + d, t);
    MessagesAppend(r, d);
  }

  /** The loop over the required keys (app.py:12-15). */
  method CheckPresence(doc: Receipt) returns (errors: seq<string>)
    ensures errors == Messages(Presence(doc))
  {
    errors := [];
    for k := 0 to |RequiredFields|
      invariant errors == Messages(MissingUpTo(doc, k))
    {
      var field := RequiredFields[k];
      MessagesAppend(MissingUpTo(doc, k), MissingIf(doc, field));
      if !HasField(doc, field) {
        errors := errors + [MissingPrefix + FieldName(field)];
      }
    }
  }

  /** The items check with its loop over `enumerate(items)` and its two
      `continue`s (app.py:43-64). */
  method CheckItems(items: seq<Item>, cls: CharClasses) returns (errors: seq<string>)
    ensures errors == Messages(ItemsCheck(cls, items))
  {
    if |items| < 1 {
      errors := [NoItemsText];
      return;
    }
    errors := [];
    ghost var reports := ItemReports(cls, items);
    for idx := 0 to |items|
      invariant errors == Messages(Concat(reports[..idx]))
    {
      assert reports[..idx + 1][..idx] == reports[..idx];
      MessagesAppend(Concat(reports[..idx]), ItemCheck(cls, items[idx], idx));
      var itemErrors := CheckItem(items[idx], idx, cls);
      errors := errors + itemErrors;
    }
    assert reports[..|items|] == reports;
  }

  /** One pass of the items loop (app.py:48-64); each `continue` of the loop
      is a `return` here. */
  method CheckItem(item: Item, idx: nat, cls: CharClasses) returns (errors: seq<string>)
    ensures errors == Messages(ItemCheck(cls, item, idx))
  {
    if !item.Object? {
      MessagesSingle(ItemNotObject(idx));
      return [ItemMessage(idx, NotObjectText)];
    }
    if item.shortDescription.None? || item.price.None? {
      MessagesSingle(ItemMissingFields(idx));
      return [ItemMessage(idx, MissingFieldsText)];
    }
    errors := CheckItemFields(item.shortDescription.value, item.price.value, idx, cls);
  }

  /** The description and price checks of an item that has both keys (app.py:54-64). */
  method CheckItemFields(desc: string, price: string, idx: nat, cls: CharClasses) returns (errors: seq<string>)
    ensures errors == Messages(DescriptionCheck(cls, desc, idx) + PriceCheck(cls, price, idx))
  {
    MessagesAppend(DescriptionCheck(cls, desc, idx), PriceCheck(cls, price, idx));
    DescriptionMessages(cls, desc, idx);
    PriceMessages(cls, price, idx);
    errors := [];
    if !MatchesDescription(cls, Strip(cls, desc)) {
      errors := errors + [ItemMessage(idx, BadDescriptionText)];
    }
    assert errors == Messages(DescriptionCheck(cls, desc, idx));
    ghost var middle := errors;
    if !MatchesMoney(price) {
      errors := errors + [ItemMessage(idx, BadPriceText)];
    } else if ParseFloat(cls, price).None? {
      errors := errors + [ItemMessage(idx, PriceNotNumberText)];
    }
    assert errors == middle + Messages(PriceCheck(cls, price, idx));
  }

  /** The messages of the description check of one item, spelled out. */
  lemma DescriptionMessages(cls: CharClasses, desc: string, idx: nat)
    ensures Messages(DescriptionCheck(cls, desc, idx)) ==
      if MatchesDescription(cls, Strip(cls, desc)) then [] else [ItemMessage(idx, BadDescriptionText)]
  {
    MessagesSingle(ItemBadDescription(idx));
  }

  /** The messages of the price check of one item, spelled out. */
  lemma PriceMessages(cls: CharClasses, price: string, idx: nat)
    ensures Messages(PriceCheck(cls, price, idx)) ==
      if !MatchesMoney(price) then [ItemMessage(idx, BadPriceText)]
      else if ParseFloat(cls, price).None? then [ItemMessage(idx, PriceNotNumberText)]
      else []
  {
    MessagesSingle(ItemBadPrice(idx));
    MessagesSingle(ItemPriceNotNumber(idx));
  }

  // ---------------------------------------------------------------------------
  // Reports in general
  // ---------------------------------------------------------------------------

  lemma {:induction false} ConcatAppend(rs: seq<seq<Violation>>, ts: seq<seq<Violation>>)
    ensures Concat(rs + ts) == Concat(rs) + Concat(ts)
  {
    if ts == [] {
      assert rs + ts == rs;
    } else {
      assert (rs + ts)[..|rs + ts| - 1] == rs + ts[..|ts| - 1];
      ConcatAppend(rs, ts[..|ts| - 1]);
    }
  }

  /** Every violation in the concatenation comes from one of the reports. */
  lemma {:induction false} ConcatMember(rs: seq<seq<Violation>>, v: Violation)
    requires v in Concat(rs)
    ensures exists i :: 0 <= i < |rs| && v in rs[i]
  {
    var n := |rs|;
    if v !in rs[n - 1] {
      ConcatMember(rs[..n - 1], v);
      var i :| 0 <= i < n - 1 && v in rs[..n - 1][i];
      assert v in rs[i];
    }
  }

  /** The concatenation is empty exactly when every report is. */
  lemma {:induction false} ConcatEmptyIff(rs: seq<seq<Violation>>)
    ensures Concat(rs) == [] <==> forall i :: 0 <= i < |rs| ==> rs[i] == []
  {
    if rs != [] {
      ConcatEmptyIff(rs[..|rs| - 1]);
      assert forall i :: 0 <= i < |rs| - 1 ==> rs[i] == rs[..|rs| - 1][i];
    }
  }

  // ---------------------------------------------------------------------------
  // What a valid receipt is
  // ---------------------------------------------------------------------------

  /** An item the validator lets through. */
  predicate ItemValid(cls: CharClasses, item: Item) {
    && item.Object?
    && item.shortDescription.Some? && item.price.Some?
    && MatchesDescription(cls, Strip(cls, item.shortDescription.value))
    && MatchesMoney(item.price.value)
  }

  /** A receipt the validator lets through, stated field by field. */
  predicate IsValidReceipt(doc: Receipt, cls: CharClasses) {
    && AllPresent(doc)
    && MatchesRetailer(cls, doc.retailer.value)
    && ParseDate(doc.purchaseDate.value).Some?
    && ParseTime(doc.purchaseTime.value).Some?
    && |doc.items.value| >= 1
    && (forall i :: 0 <= i < |doc.items.value| ==> ItemValid(cls, doc.items.value[i]))
    && MatchesMoney(doc.total.value)
  }

  /** One pass of the items loop reports nothing exactly for a valid item. */
  lemma ItemCheckEmptyIff(cls: CharClasses, item: Item, idx: nat)
    requires AsciiAgrees(cls)
    ensures ItemCheck(cls, item, idx) == [] <==> ItemValid(cls, item)
  {
    if item.Object? && item.shortDescription.Some? && item.price.Some? && MatchesMoney(item.price.value) {
      FloatAcceptsMoney(cls, item.price.value);
    }
  }

  lemma ItemsCheckEmptyIff(cls: CharClasses, items: seq<Item>)
    requires AsciiAgrees(cls)
    ensures ItemsCheck(cls, items) == [] <==> |items| >= 1 && forall i :: 0 <= i < |items| ==> ItemValid(cls, items[i])
  {
    var rs := ItemReports(cls, items);
    ConcatEmptyIff(rs);
    forall i | 0 <= i < |items| ensures rs[i] == [] <==> ItemValid(cls, items[i]) {
      ItemCheckEmptyIff(cls, items[i], i);
    }
  }

  /** The validator reports nothing exactly for the valid receipts. */
  lemma ValidIffNoViolations(doc: Receipt, cls: CharClasses)
    requires AsciiAgrees(cls)
    ensures Violations(doc, cls) == [] <==> IsValidReceipt(doc, cls)
  {
    PresenceMembers(doc);
    if AllPresent(doc) {
      ItemsCheckEmptyIff(cls, doc.items.value);
      if MatchesMoney(doc.total.value) {
        FloatAcceptsMoney(cls, doc.total.value);
      }
    }
  }

  // ---------------------------------------------------------------------------
  // Presence short-circuit
  // ---------------------------------------------------------------------------

  /** The presence check is one violation per absent key, in the order
      retailer, purchaseDate, purchaseTime, items, total. */
  lemma PresenceInFieldOrder(doc: Receipt)
    ensures Presence(doc) == MissingIf(doc, Retailer) + MissingIf(doc, PurchaseDate)
      + MissingIf(doc, PurchaseTime) + MissingIf(doc, Items) + MissingIf(doc, Total)
  {
    assert MissingUpTo(doc, 1) == MissingIf(doc, Retailer);
    assert MissingUpTo(doc, 3) == MissingUpTo(doc, 2) + MissingIf(doc, PurchaseTime);
    assert MissingUpTo(doc, 5) == MissingUpTo(doc, 4) + MissingIf(doc, Total);
  }

  /** A missing key stops validation: the report is the presence check alone,
      and holds no format violation; with all keys present, no key is
      reported missing. */
  lemma PresenceShortCircuit(doc: Receipt, cls: CharClasses)
    ensures !AllPresent(doc) ==> Violations(doc, cls) == Presence(doc)
    ensures !AllPresent(doc) ==> forall v :: v in Violations(doc, cls) ==> v.MissingField?
    ensures AllPresent(doc) ==> forall v :: v in Violations(doc, cls) ==> !v.MissingField?
  {
    PresenceMembers(doc);
    if AllPresent(doc) {
      FormatSections(doc, cls);
    }
  }

  /** The example `{"retailer": "Test"}` (test_app.py:44-47) is rejected with
      the four missing keys, in this order. */
  lemma RetailerOnlyExample(cls: CharClasses)
    ensures Violations(Receipt(Some("Test"), None, None, None, None, false), cls)
      == [MissingField(PurchaseDate), MissingField(PurchaseTime), MissingField(Items), MissingField(Total)]
    ensures Messages(Violations(Receipt(Some("Test"), None, None, None, None, false), cls))
      == ["Missing field: purchaseDate", "Missing field: purchaseTime", "Missing field: items", "Missing field: total"]
  {
    var doc := Receipt(Some("Test"), None, None, None, None, false);
    PresenceInFieldOrder(doc);
    var vs := [MissingField(PurchaseDate), MissingField(PurchaseTime), MissingField(Items), MissingField(Total)];
    assert Violations(doc, cls) == vs;
    MessagesPointwise(vs);
    MissingMessages();
  }

  /** The missing-key messages, spelled out. */
  lemma MissingMessages()
    ensures Message(MissingField(Retailer)) == "Missing field: retailer"
    ensures Message(MissingField(PurchaseDate)) == "Missing field: purchaseDate"
    ensures Message(MissingField(PurchaseTime)) == "Missing field: purchaseTime"
    ensures Message(MissingField(Items)) == "Missing field: items"
    ensures Message(MissingField(Total)) == "Missing field: total"
  {
  }

  // ---------------------------------------------------------------------------
  // Order of the violations
  // ---------------------------------------------------------------------------

  /** Which check reports a violation, in the order the checks run. */
  function Section(v: Violation): nat {
    match v
    case MissingField(_) => 0
    case BadRetailer => 1
    case BadDate => 2
    case BadTime => 3
    case NoItems => 4
    case BadTotal => 6
    case TotalNotNumber => 6
    case _ => 5
  }

  /** Within a check: the key's rank among the required keys, or the item's index. */
  function Position(v: Violation): nat {
    match v
    case MissingField(f) => FieldRank(f)
    case ItemNotObject(i) => i
    case ItemMissingFields(i) => i
    case ItemBadDescription(i) => i
    case ItemBadPrice(i) => i
    case ItemPriceNotNumber(i) => i
    case _ => 0
  }

  /** Within one item: the description comes before the price. */
  function Step(v: Violation): nat {
    match v
    case ItemBadPrice(_) => 1
    case ItemPriceNotNumber(_) => 1
    case _ => 0
  }

  /** `v` is reported strictly before `w`. */
  predicate Precedes(v: Violation, w: Violation) {
    || Section(v) < Section(w)
    || (Section(v) == Section(w) && Position(v) < Position(w))
    || (Section(v) == Section(w) && Position(v) == Position(w) && Step(v) < Step(w))
  }

  /** Strictly increasing in (check, key or item, step): so also without repeats. */
  predicate InCheckOrder(vs: seq<Violation>) {
    forall i, j :: 0 <= i < j < |vs| ==> Precedes(vs[i], vs[j])
  }

  lemma ConcatInOrder(a: seq<Violation>, b: seq<Violation>)
    requires InCheckOrder(a) && InCheckOrder(b)
    requires forall i, j :: 0 <= i < |a| && 0 <= j < |b| ==> Precedes(a[i], b[j])
    ensures InCheckOrder(a + b)
  {
    forall i, j | 0 <= i < j < |a + b| ensures Precedes((a + b)[i], (a + b)[j]) {
      if j < |a| {
        assert (a + b)[i] == a[i] && (a + b)[j] == a[j];
      } else if i >= |a| {
        assert (a + b)[i] == b[i - |a|] && (a + b)[j] == b[j - |a|];
      } else {
        assert (a + b)[i] == a[i] && (a + b)[j] == b[j - |a|];
      }
    }
  }

  lemma {:induction false} MissingInOrder(doc: Receipt, n: nat)
    requires n <= |RequiredFields|
    ensures InCheckOrder(MissingUpTo(doc, n))
    ensures forall v :: v in MissingUpTo(doc, n) ==> Position(v) < n
  {
    if n > 0 {
      MissingInOrder(doc, n - 1);
      MissingUpToMembers(doc, n - 1);
      var a := MissingUpTo(doc, n - 1);
      var f := RequiredFields[n - 1];
      assert FieldRank(f) == n - 1;
      assert forall i :: 0 <= i < |a| ==> a[i] in a;
      ConcatInOrder(a, MissingIf(doc, f));
    }
  }

  /** The lists one pass of the items loop can produce for item `idx`. */
  predicate ItemShaped(vs: seq<Violation>, idx: nat) {
    || vs == [ItemNotObject(idx)]
    || vs == [ItemMissingFields(idx)]
    || vs == []
    || vs == [ItemBadDescription(idx)]
    || vs == [ItemBadPrice(idx)]
    || vs == [ItemPriceNotNumber(idx)]
    || vs == [ItemBadDescription(idx), ItemBadPrice(idx)]
    || vs == [ItemBadDescription(idx), ItemPriceNotNumber(idx)]
  }

  /** Report `i` is the report of item `i`. */
  predicate ReportsShaped(rs: seq<seq<Violation>>) {
    forall i :: 0 <= i < |rs| ==> ItemShaped(rs[i], i)
  }

  lemma ItemCheckShaped(cls: CharClasses, item: Item, idx: nat)
    ensures ItemShaped(ItemCheck(cls, item, idx), idx)
  {
    if item.Object? && item.shortDescription.Some? && item.price.Some? {
      var a := DescriptionCheck(cls, item.shortDescription.value, idx);
      var b := PriceCheck(cls, item.price.value, idx);
      assert a == [] || a == [ItemBadDescription(idx)];
      assert b == [] || b == [ItemBadPrice(idx)] || b == [ItemPriceNotNumber(idx)];
    }
  }

  lemma ItemReportsShaped(cls: CharClasses, items: seq<Item>)
    ensures ReportsShaped(ItemReports(cls, items))
  {
    forall i | 0 <= i < |items| ensures ItemShaped(ItemReports(cls, items)[i], i) {
      ItemCheckShaped(cls, items[i], i);
    }
  }

  /** Everything in the report of item `idx` is about that item, in order. */
  lemma ShapedInOrder(vs: seq<Violation>, idx: nat)
    requires ItemShaped(vs, idx)
    ensures InCheckOrder(vs)
    ensures forall v :: v in vs ==> Section(v) == 5 && Position(v) == idx
  {
  }

  lemma {:induction false} ReportsInOrder(rs: seq<seq<Violation>>)
    requires ReportsShaped(rs)
    ensures InCheckOrder(Concat(rs))
    ensures forall v :: v in Concat(rs) ==> Section(v) == 5 && Position(v) < |rs|
  {
    if rs != [] {
      var n := |rs|;
      var init := rs[..n - 1];
      assert ReportsShaped(init) by {
        forall i | 0 <= i < n - 1 ensures ItemShaped(init[i], i) { assert init[i] == rs[i]; }
      }
      ReportsInOrder(init);
      ShapedInOrder(rs[n - 1], n - 1);
      var a := Concat(init);
      var b := rs[n - 1];
      assert forall i :: 0 <= i < |a| ==> a[i] in a;
      assert forall j :: 0 <= j < |b| ==> b[j] in b;
      ConcatInOrder(a, b);
    }
  }

  /** The format violations by check: retailer, date, time, items, total. */
  lemma FormatSections(doc: Receipt, cls: CharClasses)
    requires AllPresent(doc)
    ensures forall v :: v in RetailerCheck(cls, doc.retailer.value) ==> Section(v) == 1
    ensures forall v :: v in DateCheck(doc.purchaseDate.value) ==> Section(v) == 2
    ensures forall v :: v in TimeCheck(doc.purchaseTime.value) ==> Section(v) == 3
    ensures forall v :: v in ItemsCheck(cls, doc.items.value) ==> 4 <= Section(v) <= 5
    ensures forall v :: v in TotalCheck(cls, doc.total.value) ==> Section(v) == 6
    ensures forall v :: v in FormatViolations(doc, cls) ==> 1 <= Section(v) <= 6
  {
    FieldSections(doc, cls);
    ItemsSections(cls, doc.items.value);
  }

  lemma FieldSections(doc: Receipt, cls: CharClasses)
    requires AllPresent(doc)
    ensures forall v :: v in RetailerCheck(cls, doc.retailer.value) ==> Section(v) == 1
    ensures forall v :: v in DateCheck(doc.purchaseDate.value) ==> Section(v) == 2
    ensures forall v :: v in TimeCheck(doc.purchaseTime.value) ==> Section(v) == 3
    ensures forall v :: v in TotalCheck(cls, doc.total.value) ==> Section(v) == 6
  {
  }

  lemma ItemsSections(cls: CharClasses, items: seq<Item>)
    ensures forall v :: v in ItemsCheck(cls, items) ==> 4 <= Section(v) <= 5
  {
    if |items| >= 1 {
      ItemReportsShaped(cls, items);
      ReportsInOrder(ItemReports(cls, items));
    }
  }

  /** Appending a part whose checks all come later keeps a list in order. */
  lemma AppendLaterSection(a: seq<Violation>, b: seq<Violation>, s: nat)
    requires InCheckOrder(a) && InCheckOrder(b)
    requires forall v :: v in a ==> Section(v) < s
    requires forall v :: v in b ==> Section(v) >= s
    ensures InCheckOrder(a + b)
  {
    assert forall i :: 0 <= i < |a| ==> a[i] in a;
    assert forall j :: 0 <= j < |b| ==> b[j] in b;
    ConcatInOrder(a, b);
  }

  /** The whole report is in check order: missing keys by rank, then retailer,
      date, time, the items by ascending index (description before price within
      one item), then total; in particular no violation is reported twice. */
  lemma ViolationsInCheckOrder(doc: Receipt, cls: CharClasses)
    ensures InCheckOrder(Violations(doc, cls))
  {
    if !AllPresent(doc) {
      MissingInOrder(doc, |RequiredFields|);
    } else {
      FormatSections(doc, cls);
      var r := RetailerCheck(cls, doc.retailer.value);
      var d := DateCheck(doc.purchaseDate.value);
      var t := TimeCheck(doc.purchaseTime.value);
      var its := ItemsCheck(cls, doc.items.value);
      var tot := TotalCheck(cls, doc.total.value);
      if |doc.items.value| >= 1 {
        ItemReportsShaped(cls, doc.items.value);
        ReportsInOrder(ItemReports(cls, doc.items.value));
      }
      AppendLaterSection(r, d, 2);
      AppendLaterSection(r + d, t, 3);
      AppendLaterSection(r + d + t, its, 4);
      AppendLaterSection(r + d + t + its, tot, 6);
    }
  }

  // ---------------------------------------------------------------------------
  // Independence of the checks and gating of the items
  // ---------------------------------------------------------------------------

  /** With all keys present, a violation is reported exactly when one of the
      five format checks reports it. */
  lemma FormatMembers(doc: Receipt, cls: CharClasses, v: Violation)
    requires AllPresent(doc)
    ensures v in Violations(doc, cls) <==>
      || v in RetailerCheck(cls, doc.retailer.value)
      || v in DateCheck(doc.purchaseDate.value)
      || v in TimeCheck(doc.purchaseTime.value)
      || v in ItemsCheck(cls, doc.items.value)
      || v in TotalCheck(cls, doc.total.value)
  {
  }

  /** A non-empty items list reports only about its items. */
  lemma ItemsCheckAboutItems(cls: CharClasses, items: seq<Item>)
    requires |items| >= 1
    ensures forall v :: v in ItemsCheck(cls, items) ==> Section(v) == 5 && Position(v) < |items|
  {
    ItemReportsShaped(cls, items);
    ReportsInOrder(ItemReports(cls, items));
  }

  /** With all keys present, each check reports exactly on its own field: the
      retailer, date, time, empty-items and total violations each appear iff
      their own field fails, whatever the other fields hold. */
  lemma FormatChecksIndependent(doc: Receipt, cls: CharClasses)
    requires AllPresent(doc)
    ensures BadRetailer in Violations(doc, cls) <==> !MatchesRetailer(cls, doc.retailer.value)
    ensures BadDate in Violations(doc, cls) <==> ParseDate(doc.purchaseDate.value).None?
    ensures BadTime in Violations(doc, cls) <==> ParseTime(doc.purchaseTime.value).None?
    ensures NoItems in Violations(doc, cls) <==> |doc.items.value| == 0
    ensures BadTotal in Violations(doc, cls) <==> !MatchesMoney(doc.total.value)
  {
    RetailerReported(doc, cls);
    DateReported(doc, cls);
    TimeReported(doc, cls);
    NoItemsReported(doc, cls);
    TotalReported(doc, cls);
  }

  lemma RetailerReported(doc: Receipt, cls: CharClasses)
    requires AllPresent(doc)
    ensures BadRetailer in Violations(doc, cls) <==> !MatchesRetailer(cls, doc.retailer.value)
  {
    if |doc.items.value| >= 1 {
      ItemsCheckAboutItems(cls, doc.items.value);
    }
    FormatMembers(doc, cls, BadRetailer);
  }

  lemma DateReported(doc: Receipt, cls: CharClasses)
    requires AllPresent(doc)
    ensures BadDate in Violations(doc, cls) <==> ParseDate(doc.purchaseDate.value).None?
  {
    if |doc.items.value| >= 1 {
      ItemsCheckAboutItems(cls, doc.items.value);
    }
    FormatMembers(doc, cls, BadDate);
  }

  lemma TimeReported(doc: Receipt, cls: CharClasses)
    requires AllPresent(doc)
    ensures BadTime in Violations(doc, cls) <==> ParseTime(doc.purchaseTime.value).None?
  {
    if |doc.items.value| >= 1 {
      ItemsCheckAboutItems(cls, doc.items.value);
    }
    FormatMembers(doc, cls, BadTime);
  }

  lemma NoItemsReported(doc: Receipt, cls: CharClasses)
    requires AllPresent(doc)
    ensures NoItems in Violations(doc, cls) <==> |doc.items.value| == 0
  {
    if |doc.items.value| >= 1 {
      ItemsCheckAboutItems(cls, doc.items.value);
    }
    FormatMembers(doc, cls, NoItems);
  }

  lemma TotalReported(doc: Receipt, cls: CharClasses)
    requires AllPresent(doc)
    ensures BadTotal in Violations(doc, cls) <==> !MatchesMoney(doc.total.value)
  {
    if |doc.items.value| >= 1 {
      ItemsCheckAboutItems(cls, doc.items.value);
    }
    FormatMembers(doc, cls, BadTotal);
  }

  /** The "is not a valid number" violations (app.py:63-64, 73-74) are never
      reported: a string the money pattern accepts always converts. */
  lemma NeverNotANumber(doc: Receipt, cls: CharClasses)
    requires AsciiAgrees(cls)
    ensures forall v :: v in Violations(doc, cls) ==> !v.TotalNotNumber? && !v.ItemPriceNotNumber?
  {
    forall v | v in Violations(doc, cls) ensures !v.TotalNotNumber? && !v.ItemPriceNotNumber? {
      NotANumberAbsent(doc, cls, v);
    }
  }

  lemma NotANumberAbsent(doc: Receipt, cls: CharClasses, v: Violation)
    requires AsciiAgrees(cls)
    requires v in Violations(doc, cls)
    ensures !v.TotalNotNumber? && !v.ItemPriceNotNumber?
  {
    if !AllPresent(doc) {
      PresenceMembers(doc);
    } else {
      FormatMembers(doc, cls, v);
      var total := doc.total.value;
      var items := doc.items.value;
      if v in TotalCheck(cls, total) {
        if MatchesMoney(total) {
          FloatAcceptsMoney(cls, total);
        }
      } else if v in ItemsCheck(cls, items) && |items| >= 1 {
        NoPriceNotNumber(cls, items);
        ItemsCheckAboutItems(cls, items);
      }
    }
  }

  lemma NoPriceNotNumber(cls: CharClasses, items: seq<Item>)
    requires AsciiAgrees(cls)
    ensures forall v :: v in Concat(ItemReports(cls, items)) ==> !v.ItemPriceNotNumber?
  {
    var rs := ItemReports(cls, items);
    forall v | v in Concat(rs) ensures !v.ItemPriceNotNumber? {
      ConcatMember(rs, v);
      var i :| 0 <= i < |rs| && v in rs[i];
      ItemNeverNotANumber(cls, items[i], i);
    }
  }

  /** One pass of the loop never reports an unconvertible price. */
  lemma ItemNeverNotANumber(cls: CharClasses, item: Item, idx: nat)
    requires AsciiAgrees(cls)
    ensures forall v :: v in ItemCheck(cls, item, idx) ==> !v.ItemPriceNotNumber?
  {
    if item.Object? && item.shortDescription.Some? && item.price.Some? && MatchesMoney(item.price.value) {
      FloatAcceptsMoney(cls, item.price.value);
    }
  }

  /** `v` is about the item at index `k`. */
  predicate AboutItem(v: Violation, k: nat) {
    Section(v) == 5 && v.idx == k
  }

  /** The violations about item `k`, in order. */
  function ForItem(vs: seq<Violation>, k: nat): (r: seq<Violation>)
    ensures forall v :: v in r ==> v in vs && AboutItem(v, k)
    ensures forall v :: v in vs && AboutItem(v, k) ==> v in r
  {
    if vs == [] then []
    else
      var last := vs[|vs| - 1];
      assert forall v :: v in vs ==> v in vs[..|vs| - 1] || v == last;
      ForItem(vs[..|vs| - 1], k) + (if AboutItem(last, k) then [last] else [])
  }

  lemma {:induction false} ForItemAppend(a: seq<Violation>, b: seq<Violation>, k: nat)
    ensures ForItem(a + b, k) == ForItem(a, k) + ForItem(b, k)
  {
    if b != [] {
      assert (a + b)[..|a + b| - 1] == a + b[..|b| - 1];
      ForItemAppend(a, b[..|b| - 1], k);
    } else {
      assert a + b == a;
    }
  }

  lemma ForItemShaped(vs: seq<Violation>, idx: nat, k: nat)
    requires ItemShaped(vs, idx)
    ensures ForItem(vs, k) == if k == idx then vs else []
  {
    if |vs| == 2 {
      assert vs[..1][..0] == [];
    }
  }

  lemma {:induction false} ForItemReports(rs: seq<seq<Violation>>, k: nat)
    requires ReportsShaped(rs)
    ensures ForItem(Concat(rs), k) == if k < |rs| then rs[k] else []
  {
    if rs != [] {
      var n := |rs|;
      var init := rs[..n - 1];
      assert ReportsShaped(init) by {
        forall i | 0 <= i < n - 1 ensures ItemShaped(init[i], i) { assert init[i] == rs[i]; }
      }
      assert ForItem(Concat(rs), k) == ForItem(Concat(init), k) + ForItem(rs[n - 1], k) by {
        ForItemAppend(Concat(init), rs[n - 1], k);
      }
      ForItemReports(init, k);
      ForItemShaped(rs[n - 1], n - 1, k);
      if k < n - 1 { assert init[k] == rs[k]; }
    }
  }

  lemma ForItemOutside(vs: seq<Violation>, k: nat)
    requires forall v :: v in vs ==> Section(v) != 5
    ensures ForItem(vs, k) == []
  {
    if ForItem(vs, k) != [] {
      assert ForItem(vs, k)[0] in ForItem(vs, k);
    }
  }

  /** Item gating (app.py:47-64): the violations about item `k` are exactly
      what its own pass of the items loop reports, whatever the other fields
      and items hold. */
  lemma ItemGating(doc: Receipt, cls: CharClasses, k: nat)
    requires AllPresent(doc)
    requires k < |doc.items.value|
    ensures ForItem(Violations(doc, cls), k) == ItemCheck(cls, doc.items.value[k], k)
  {
    var rs := ItemReports(cls, doc.items.value);
    ForItemOfItems(doc, cls, k);
    assert ForItem(Concat(rs), k) == rs[k] by {
      ItemReportsShaped(cls, doc.items.value);
      ForItemReports(rs, k);
    }
  }

  /** Only the items section speaks about an item. */
  lemma ForItemOfItems(doc: Receipt, cls: CharClasses, k: nat)
    requires AllPresent(doc)
    requires k < |doc.items.value|
    ensures ForItem(Violations(doc, cls), k) == ForItem(Concat(ItemReports(cls, doc.items.value)), k)
  {
    var pre := RetailerCheck(cls, doc.retailer.value) + DateCheck(doc.purchaseDate.value) + TimeCheck(doc.purchaseTime.value);
    var tot := TotalCheck(cls, doc.total.value);
    FieldSections(doc, cls);
    ForItemBetween(pre, Concat(ItemReports(cls, doc.items.value)), tot, k);
  }

  /** Parts outside the items section add nothing about an item. */
  lemma ForItemBetween(pre: seq<Violation>, mid: seq<Violation>, post: seq<Violation>, k: nat)
    requires forall v :: v in pre ==> Section(v) != 5
    requires forall v :: v in post ==> Section(v) != 5
    ensures ForItem(pre + mid + post, k) == ForItem(mid, k)
  {
    ForItemAppend(pre + mid, post, k);
    ForItemAppend(pre, mid, k);
    ForItemOutside(pre, k);
    ForItemOutside(post, k);
  }

  /** A non-object item, or one lacking a key, gets one violation, and its
      description and price are not looked at (the two `continue`s, app.py:49-53). */
  lemma ItemGatingCases(doc: Receipt, cls: CharClasses, k: nat)
    requires AllPresent(doc)
    requires k < |doc.items.value|
    ensures doc.items.value[k].NotObject? ==> ForItem(Violations(doc, cls), k) == [ItemNotObject(k)]
    ensures doc.items.value[k].Object? && (doc.items.value[k].shortDescription.None? || doc.items.value[k].price.None?)
      ==> ForItem(Violations(doc, cls), k) == [ItemMissingFields(k)]
  {
    ItemGating(doc, cls, k);
  }

  /** An empty items list gives the one empty-items violation and no violation about any item. */
  lemma EmptyItems(doc: Receipt, cls: CharClasses)
    requires AllPresent(doc)
    requires doc.items.value == []
    ensures NoItems in Violations(doc, cls)
    ensures forall v :: v in Violations(doc, cls) ==> Section(v) != 5
  {
    FormatSections(doc, cls);
  }

}
