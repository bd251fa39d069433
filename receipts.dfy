/** The receipt document as the validator and the scorer see it: the parsed
    JSON object, reduced to what `validate_receipt` and `calculate_points` read. */
module Receipts {
  import opened Wrappers

  /** One element of the `items` list: a JSON object, either of whose two keys
      may be absent, or any other JSON value. */
  datatype Item = NotObject | Object(shortDescription: Option<string>, price: Option<string>)

  /** A receipt document. Each of the five keys the validator asks for is either
      present (`Some`) or absent (`None`); `otherKeys` says whether the object
      has any key besides these five, which matters only to whether the object
      is empty. */
  datatype Receipt = Receipt(
    retailer: Option<string>,
    purchaseDate: Option<string>,
    purchaseTime: Option<string>,
    items: Option<seq<Item>>,
    total: Option<string>,
    otherKeys: bool)

  /** The empty object `{}`, the one document that is falsy. */
  predicate IsEmptyObject(doc: Receipt) {
    && doc.retailer.None? && doc.purchaseDate.None? && doc.purchaseTime.None?
    && doc.items.None? && doc.total.None? && !doc.otherKeys
  }

}
